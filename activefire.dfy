/** Model of `ActiveFire` and `ActiveFire375` in
    scripts/VIIRS_threshold_reflCor_Bulk.py: the fire-mask codes of one
    granule, the cached "conditional" array of fire pixels, and the 375 m
    filter that discards rows with suspiciously many high-confidence fires. */
module ActiveFires {
  import opened Wrappers
  import opened Grids

  /** Fire-mask code of a clear land pixel without fire. */
  const NonFireCode: int := 5
  /** Fire-mask code of a high-confidence fire. */
  const HighConfidence: int := 9

  /** Codes 7, 8 and 9: fire of low, nominal and high confidence. */
  predicate IsFire(code: int) {
    7 <= code <= 9
  }

  /** The value a `uint8` array holds after an integer is stored into it. */
  function Uint8(v: int): (b: int)
    ensures 0 <= b < 256 && (b - v) % 256 == 0
  {
    v % 256
  }

  /** How many entries of `row` equal `v` (`np.sum(row == v)`). */
  function CountOf(row: seq<int>, v: int): (n: nat)
    ensures n <= |row|
    ensures n == 0 <==> v !in row
  {
    if row == [] then 0
    else
      assert row == row[..|row| - 1] + [row[|row| - 1]];
      CountOf(row[..|row| - 1], v) + (if row[|row| - 1] == v then 1 else 0)
  }

  /** The positions of `row` that hold `v`. */
  ghost function PositionsOf(row: seq<int>, v: int): set<nat> {
    set j: nat | j < |row| && row[j] == v
  }

  /** `CountOf` counts the positions holding the value. */
  lemma {:induction false} CountOfPositions(row: seq<int>, v: int)
    ensures CountOf(row, v) == |PositionsOf(row, v)|
  {
    if row != [] {
      var front := row[..|row| - 1];
      var last: nat := |row| - 1;
      CountOfPositions(front, v);
      var p, q := PositionsOf(row, v), PositionsOf(front, v);
      var extra: set<nat> := if row[last] == v then {last} else {};
      assert p == q + extra by {
        forall j: nat | j in p ensures j in q + extra {
          if j < last { assert front[j] == row[j]; }
        }
        forall j: nat | j in q ensures j in p {
          assert front[j] == row[j];
        }
      }
      assert q !! extra;
      assert CountOf(row, v) == CountOf(front, v) + |extra|;
    }
  }

  /** `count_high_confidence` on a grid: the high-confidence fires per row. */
  function RowNines(g: seq<seq<int>>): (sums: seq<nat>)
    ensures |sums| == |g|
  {
    seq(|g|, i requires 0 <= i < |g| => CountOf(g[i], HighConfidence))
  }

  /** `recode_high_confidence` on a grid, given the row sums it consults:
      in every row whose sum exceeds the threshold, each high-confidence
      fire is replaced by the recode value as a `uint8` stores it. */
  function Recoded(g: seq<seq<int>>, sums: seq<nat>, threshold: int, recodeVal: int): (h: seq<seq<int>>)
    requires |sums| == |g|
    ensures |h| == |g| && forall i :: 0 <= i < |g| ==> |h[i]| == |g[i]|
  {
    seq(|g|, i requires 0 <= i < |g| =>
      seq(|g[i]|, j requires 0 <= j < |g[i]| =>
        if sums[i] > threshold && g[i][j] == HighConfidence then Uint8(recodeVal) else g[i][j]))
  }

  /** Recoding twice with the same row sums changes nothing more: the row
      sums `count_high_confidence` caches make a second call a no-op. */
  lemma RecodeIdempotent(g: seq<seq<int>>, sums: seq<nat>, threshold: int, recodeVal: int)
    requires |sums| == |g|
    ensures Recoded(Recoded(g, sums, threshold, recodeVal), sums, threshold, recodeVal) == Recoded(g, sums, threshold, recodeVal)
  {
    var h := Recoded(g, sums, threshold, recodeVal);
    var hh := Recoded(h, sums, threshold, recodeVal);
    forall i | 0 <= i < |g| ensures hh[i] == h[i] {
      assert forall j :: 0 <= j < |g[i]| ==> hh[i][j] == h[i][j];
    }
  }

  /** A row with at most `threshold` high-confidence fires is left alone. */
  lemma RecodeKeepsQuietRow(g: seq<seq<int>>, threshold: int, recodeVal: int, i: nat)
    requires i < |g| && CountOf(g[i], HighConfidence) <= threshold
    ensures Recoded(g, RowNines(g), threshold, recodeVal)[i] == g[i]
  {
    var h := Recoded(g, RowNines(g), threshold, recodeVal);
    assert forall j :: 0 <= j < |g[i]| ==> h[i][j] == g[i][j];
  }

  /** A row with more than `threshold` high-confidence fires keeps none of
      them, unless the recode value is itself the high-confidence code. */
  lemma RecodeClearsNoisyRow(g: seq<seq<int>>, threshold: int, recodeVal: int, i: nat)
    requires i < |g| && CountOf(g[i], HighConfidence) > threshold
    requires Uint8(recodeVal) != HighConfidence
    ensures CountOf(Recoded(g, RowNines(g), threshold, recodeVal)[i], HighConfidence) == 0
  {
    var row := Recoded(g, RowNines(g), threshold, recodeVal)[i];
    forall j | 0 <= j < |row| ensures row[j] != HighConfidence {
    }
  }

  /** The 375 m fire mask of `run`: a pixel is kept exactly when it is a fire
      and is not a high-confidence fire in a row with more than `limit`
      of them. */
  predicate Kept375(g: seq<seq<int>>, limit: Option<int>, i: nat, j: nat)
    requires i < |g| && j < |g[i]|
  {
    IsFire(g[i][j]) &&
    !(g[i][j] == HighConfidence && limit.Some? && CountOf(g[i], HighConfidence) > limit.value)
  }

  class ActiveFire {
    /** `AfArray`: the fire-mask codes. */
    var afArray: array2<int>
    /** The cached `conditional` array; null until `get_conditional` runs. */
    var conditional: array2?<int>
    /** The cached `high_conf_row_sum`; `None` until `count_high_confidence` runs. */
    var highConfRowSum: Option<seq<nat>>

    ghost predicate Valid()
      reads this
    {
      (conditional != null ==> conditional != afArray && SameShape(conditional, afArray)) &&
      (highConfRowSum.Some? ==> |highConfRowSum.value| == afArray.Length0)
    }

    /** `ActiveFire750.load` and `ActiveFire375.load` once the fire mask has
        been read. */
    constructor Load(codes: array2<int>)
      ensures Valid() && afArray == codes && conditional == null && highConfRowSum == None
    {
      afArray, conditional, highConfRowSum := codes, null, None;
    }

    /** `get_conditional`: on the first call a new array holding 1 at every
        fire and 0 elsewhere, which is cached; later calls return the cached
        array as it stands. */
    method GetConditional() returns (con: array2<int>)
      requires Valid()
      modifies this
      ensures Valid() && con == conditional
      ensures afArray == old(afArray) && highConfRowSum == old(highConfRowSum)
      ensures old(conditional) != null ==> con == old(conditional)
      ensures old(conditional) == null ==> fresh(con)
      ensures old(conditional) == null ==>
        forall i, j :: 0 <= i < con.Length0 && 0 <= j < con.Length1 ==> con[i, j] == if IsFire(afArray[i, j]) then 1 else 0
    {
      if conditional == null {
        var af := afArray;
        conditional := new int[af.Length0, af.Length1]((i, j) reads af =>
          if 0 <= i < af.Length0 && 0 <= j < af.Length1 && IsFire(af[i, j]) then 1 else 0);
      }
      con := conditional;
    }

    /** `filter_conditional`: clears `con` wherever the fire mask holds `val`. */
    method FilterConditional(con: array2<int>, val: int)
      requires SameShape(con, afArray)
      modifies con
      ensures forall i, j :: 0 <= i < con.Length0 && 0 <= j < con.Length1 ==>
        con[i, j] == if old(afArray[i, j]) == val then 0 else old(con[i, j])
    {
      for i := 0 to con.Length0
        invariant forall r, c :: 0 <= r < con.Length0 && 0 <= c < con.Length1 ==>
          con[r, c] == if r < i && old(afArray[r, c]) == val then 0 else old(con[r, c])
        invariant forall r, c :: 0 <= r < con.Length0 && 0 <= c < con.Length1 && r >= i ==>
          afArray[r, c] == old(afArray[r, c])
      {
        for j := 0 to con.Length1
          invariant forall r, c :: 0 <= r < con.Length0 && 0 <= c < con.Length1 ==>
            con[r, c] == if (r < i || (r == i && c < j)) && old(afArray[r, c]) == val then 0 else old(con[r, c])
          invariant forall r, c :: 0 <= r < con.Length0 && 0 <= c < con.Length1 && (r > i || (r == i && c >= j)) ==>
            afArray[r, c] == old(afArray[r, c])
        {
          if afArray[i, j] == val {
            con[i, j] := 0;
          }
        }
      }
    }

    /** `get_non_fire`: a new mask, true exactly at the non-fire code. */
    method GetNonFire() returns (nonFire: array2<bool>)
      ensures fresh(nonFire) && SameShape(nonFire, afArray)
      ensures forall i, j :: 0 <= i < nonFire.Length0 && 0 <= j < nonFire.Length1 ==>
        (nonFire[i, j] <==> afArray[i, j] == NonFireCode)
    {
      var af := afArray;
      nonFire := new bool[af.Length0, af.Length1]((i, j) reads af =>
        if 0 <= i < af.Length0 && 0 <= j < af.Length1 then af[i, j] == NonFireCode else false);
    }

    /** `count_high_confidence`: the high-confidence fires of every row,
        computed on the first call and cached. */
    method CountHighConfidence() returns (sums: seq<nat>)
      requires Valid()
      modifies this
      ensures Valid() && highConfRowSum == Some(sums)
      ensures afArray == old(afArray) && conditional == old(conditional)
      ensures old(highConfRowSum).Some? ==> sums == old(highConfRowSum).value
      ensures old(highConfRowSum).None? ==> sums == RowNines(Snapshot(afArray))
    {
      if highConfRowSum.Some? {
        sums := highConfRowSum.value;
      } else {
        sums := RowSums();
        highConfRowSum := Some(sums);
      }
    }

    /** `np.sum(AfArray == 9, 1)`. */
    method RowSums() returns (sums: seq<nat>)
      ensures sums == RowNines(Snapshot(afArray))
    {
      ghost var g := Snapshot(afArray);
      sums := [];
      for i := 0 to afArray.Length0
        invariant |sums| == i
        invariant forall r :: 0 <= r < i ==> sums[r] == CountOf(g[r], HighConfidence)
      {
        var n := RowCount(i, g);
        sums := sums + [n];
      }
    }

    /** The high-confidence fires of row `i`. */
    method RowCount(i: nat, ghost g: seq<seq<int>>) returns (n: nat)
      requires i < afArray.Length0 && g == Snapshot(afArray)
      ensures n == CountOf(g[i], HighConfidence)
    {
      n := 0;
      for j := 0 to afArray.Length1
        invariant n == CountOf(g[i][..j], HighConfidence)
      {
        assert g[i][..j + 1][..j] == g[i][..j];
        if afArray[i, j] == HighConfidence {
          n := n + 1;
        }
      }
      assert g[i][..afArray.Length1] == g[i];
    }

    /** `recode_high_confidence`: recodes the high-confidence fires of every
        row whose (possibly cached) count exceeds the threshold. */
    method RecodeHighConfidence(threshold: int, recodeVal: int)
      requires Valid()
      modifies this, afArray
      ensures Valid() && afArray == old(afArray) && conditional == old(conditional)
      ensures highConfRowSum.Some?
      ensures old(highConfRowSum).Some? ==> highConfRowSum == old(highConfRowSum)
      ensures old(highConfRowSum).None? ==> highConfRowSum.value == RowNines(old(Snapshot(afArray)))
      ensures Snapshot(afArray) == Recoded(old(Snapshot(afArray)), highConfRowSum.value, threshold, recodeVal)
    {
      var sums := CountHighConfidence();
      RecodeRows(sums, threshold, recodeVal);
    }

    /** The recoding loop of `recode_high_confidence`, given the row sums. */
    method RecodeRows(sums: seq<nat>, threshold: int, recodeVal: int)
      requires |sums| == afArray.Length0
      modifies afArray
      ensures Snapshot(afArray) == Recoded(old(Snapshot(afArray)), sums, threshold, recodeVal)
    {
      ghost var g := Snapshot(afArray);
      var v := Uint8(recodeVal);
      for i := 0 to afArray.Length0
        invariant forall r, c :: 0 <= r < afArray.Length0 && 0 <= c < afArray.Length1 ==>
          afArray[r, c] == if r < i && sums[r] > threshold && g[r][c] == HighConfidence then v else g[r][c]
      {
        if sums[i] > threshold {
          for j := 0 to afArray.Length1
            invariant forall r, c :: 0 <= r < afArray.Length0 && 0 <= c < afArray.Length1 ==>
              afArray[r, c] == if (r < i || (r == i && c < j)) && sums[r] > threshold && g[r][c] == HighConfidence then v else g[r][c]
          {
            if afArray[i, j] == HighConfidence {
              afArray[i, j] := v;
            }
          }
        }
      }
      SameGrid(Snapshot(afArray), Recoded(g, sums, threshold, recodeVal), afArray.Length1);
    }

    /** `ActiveFire375.get_conditional`: the fire conditional, taken before
        the optional recoding of noisy rows. */
    method GetConditional375(threshold: Option<int>, recodeVal: int) returns (con: array2<int>)
      requires Valid()
      modifies this, afArray
      ensures Valid() && con == conditional && afArray == old(afArray)
      ensures old(conditional) != null ==> con == old(conditional)
      ensures old(conditional) == null ==> fresh(con)
      ensures old(conditional) == null ==>
        forall i, j :: 0 <= i < con.Length0 && 0 <= j < con.Length1 ==> con[i, j] == if IsFire(old(afArray[i, j])) then 1 else 0
      ensures threshold.None? ==> Snapshot(afArray) == old(Snapshot(afArray)) && highConfRowSum == old(highConfRowSum)
      ensures threshold.Some? ==> highConfRowSum.Some?
      ensures threshold.Some? && old(highConfRowSum).Some? ==> highConfRowSum == old(highConfRowSum)
      ensures threshold.Some? && old(highConfRowSum).None? ==> highConfRowSum.value == RowNines(old(Snapshot(afArray)))
      ensures threshold.Some? ==>
        Snapshot(afArray) == Recoded(old(Snapshot(afArray)), highConfRowSum.value, threshold.value, recodeVal)
    {
      con := GetConditional();
      if threshold.Some? {
        RecodeHighConfidence(threshold.value, recodeVal);
      }
    }
  }

  /** The 375 m active-fire block of `run` on a freshly loaded fire mask: the
      conditional with noisy rows recoded to 10 and then filtered out. */
  method FireMask375(af: ActiveFire, limit: Option<int>) returns (con: array2<int>)
    requires af.Valid() && af.conditional == null && af.highConfRowSum == None
    modifies af, af.afArray
    ensures af.afArray == old(af.afArray)
    ensures fresh(con) && SameShape(con, af.afArray)
    ensures forall i, j :: 0 <= i < con.Length0 && 0 <= j < con.Length1 ==>
      con[i, j] == if Kept375(old(Snapshot(af.afArray)), limit, i, j) then 1 else 0
  {
    ghost var g := Snapshot(af.afArray);
    con := af.GetConditional375(limit, 10);
    ghost var h := Snapshot(af.afArray);
    af.FilterConditional(con, 10);
    forall i, j | 0 <= i < con.Length0 && 0 <= j < con.Length1
      ensures con[i, j] == if Kept375(g, limit, i, j) then 1 else 0
    {
      assert h[i][j] == af.afArray[i, j];
    }
  }
}
