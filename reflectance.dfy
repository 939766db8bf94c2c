/** Model of `VIIRSReflectanceFile` in scripts/VIIRS_threshold_reflCor_Bulk.py:
    one band of raw reflectance counts, its quality mask and the cached
    conversion to top-of-atmosphere reflectance. */
module Reflectance {
  import opened Grids

  /** Raw counts at or above this value are fill values. */
  const QaFill: real := 65528.0

  /** The quality mask of a grid of raw counts. */
  ghost function QaMask(g: seq<seq<real>>): (m: seq<seq<bool>>)
    ensures |m| == |g| && forall i :: 0 <= i < |g| ==> |m[i]| == |g[i]|
  {
    seq(|g|, i requires 0 <= i < |g| => seq(|g[i]|, j requires 0 <= j < |g[i]| => g[i][j] < QaFill))
  }

  /** Raw counts converted with the band's scale and offset. */
  ghost function Scaled(g: seq<seq<real>>, scale: real, offset: real): (s: seq<seq<real>>)
    ensures |s| == |g| && forall i :: 0 <= i < |g| ==> |s[i]| == |g[i]|
  {
    seq(|g|, i requires 0 <= i < |g| => seq(|g[i]|, j requires 0 <= j < |g[i]| => g[i][j] * scale + offset))
  }

  /** `raw * scale + offset` on a grid of counts: a new array. */
  method ScaledCopy(raw: array2<real>, scale: real, offset: real, ghost g: seq<seq<real>>)
    returns (out: array2<real>)
    requires Snapshot(raw) == g
    ensures fresh(out) && SameShape(out, raw)
    ensures Snapshot(out) == Scaled(g, scale, offset)
  {
    out := new real[raw.Length0, raw.Length1]((i, j) reads raw =>
      if 0 <= i < raw.Length0 && 0 <= j < raw.Length1 then raw[i, j] * scale + offset else 0.0);
    var h, s := Snapshot(out), Scaled(g, scale, offset);
    forall i, j | 0 <= i < |h| && 0 <= j < raw.Length1 ensures h[i][j] == s[i][j] {
      assert g[i][j] == raw[i, j];
    }
    SameGrid(h, s, raw.Length1);
  }

  class VIIRSReflectanceFile {
    /** `ReflArray`: the raw counts until `get_cor_refl` first runs, the
        corrected reflectances afterwards. */
    var reflArray: array2<real>
    /** `ReflFact[0]` and `ReflFact[1]`: the scale and the offset. */
    var scale: real
    var offset: real
    /** Whether `ReflArray` already holds corrected values. */
    var corrected: bool
    /** `qa`: true where the raw count is not a fill value. */
    var qa: array2<bool>
    /** The counts as read from the file. */
    ghost var rawCounts: seq<seq<real>>

    ghost predicate Valid()
      reads this, reflArray, qa
    {
      SameShape(qa, reflArray) &&
      Snapshot(qa) == QaMask(rawCounts) &&
      Snapshot(reflArray) == if corrected then Scaled(rawCounts, scale, offset) else rawCounts
    }

    /** The reflectance `get_cor_refl` computes for one cell. */
    ghost function Corrected(i: nat, j: nat): real
      reads this
      requires i < |rawCounts| && j < |rawCounts[i]|
    {
      rawCounts[i][j] * scale + offset
    }

    /** `load(filename, band)` once the two datasets have been read: the
        counts and the two correction factors. The quality mask is computed
        here, from the raw counts. */
    constructor Load(raw: array2<real>, scale: real, offset: real)
      ensures Valid() && !corrected
      ensures reflArray == raw && rawCounts == Snapshot(raw)
      ensures this.scale == scale && this.offset == offset
      ensures fresh(qa)
      ensures forall i, j :: 0 <= i < qa.Length0 && 0 <= j < qa.Length1 ==> (qa[i, j] <==> raw[i, j] < QaFill)
    {
      reflArray := raw;
      this.scale := scale;
      this.offset := offset;
      corrected := false;
      rawCounts := Snapshot(raw);
      qa := new bool[0, 0];
      new;
      CalcQaMask();
    }

    /** `_calc_qa_mask`: the quality mask of the array as it stands, which
        is the raw counts as long as no correction has been applied. */
    method CalcQaMask()
      requires !corrected && Snapshot(reflArray) == rawCounts
      modifies this
      ensures Valid() && fresh(qa)
      ensures reflArray == old(reflArray) && corrected == old(corrected) && rawCounts == old(rawCounts)
      ensures scale == old(scale) && offset == old(offset)
      ensures forall i, j :: 0 <= i < qa.Length0 && 0 <= j < qa.Length1 ==> (qa[i, j] <==> reflArray[i, j] < QaFill)
    {
      var refl := reflArray;
      qa := new bool[refl.Length0, refl.Length1]((i, j) reads refl =>
        if 0 <= i < refl.Length0 && 0 <= j < refl.Length1 then refl[i, j] < QaFill else false);
      SameGrid(Snapshot(qa), QaMask(rawCounts), refl.Length1);
    }

    /** `get_cor_refl`: the first call replaces `ReflArray` by a new array of
        raw * scale + offset and marks the band corrected; later calls return
        the same array untouched. Either way the result holds the corrected
        reflectances, and the quality mask still describes the raw counts. */
    method GetCorRefl() returns (r: array2<real>)
      requires Valid()
      modifies this
      ensures Valid() && corrected && r == reflArray
      ensures qa == old(qa) && rawCounts == old(rawCounts) && scale == old(scale) && offset == old(offset)
      ensures SameShape(r, old(reflArray))
      ensures old(corrected) ==> r == old(reflArray)
      ensures !old(corrected) ==> fresh(r)
    {
      if !corrected {
        reflArray := ScaledCopy(reflArray, scale, offset, rawCounts);
        corrected := true;
      }
      r := reflArray;
    }

    /** A corrected band holds `Corrected` at every cell, and its quality
        mask describes the raw counts. */
    lemma CorrectedCells()
      requires Valid() && corrected
      ensures |rawCounts| == reflArray.Length0 && Rect(rawCounts, reflArray.Length1)
      ensures forall i, j :: 0 <= i < reflArray.Length0 && 0 <= j < reflArray.Length1 ==>
        reflArray[i, j] == Corrected(i, j) && (qa[i, j] <==> rawCounts[i][j] < QaFill)
    {
      forall i, j | 0 <= i < reflArray.Length0 && 0 <= j < reflArray.Length1
        ensures reflArray[i, j] == Corrected(i, j) && (qa[i, j] <==> rawCounts[i][j] < QaFill)
      {
        assert Snapshot(reflArray)[i][j] == reflArray[i, j];
        assert Snapshot(qa)[i][j] == qa[i, j];
      }
    }
  }
}
