/** Model of `ba_threshold` in scripts/VIIRS_threshold_reflCor_Bulk.py: the
    burned-area test applied to every pixel of a granule. */
module Threshold {
  import opened Grids
  import opened Reflectance
  import opened Geo
  import opened ActiveFires

  /** The ten thresholds `ba_threshold` reads off the configuration:
      `M07UB`, `M08LB`, `M08UB`, `M10LB`, `M10UB`, `M11LB`, `RthSub`, `Rth`,
      `RthLB` and `MaxSolZen`. */
  datatype Bounds = Bounds(
    m07UB: real, m08LB: real, m08UB: real, m10LB: real, m10UB: real, m11LB: real,
    rthSub: real, rth: real, rthLB: real, maxSolZen: real)

  /** What `ba_threshold` knows about one pixel: the corrected reflectances of
      the four bands, whether the fire mask says non-fire, whether the sun is
      up, and the quality flags of the four bands. */
  datatype Pixel = Pixel(
    m07: real, m08: real, m10: real, m11: real,
    nonFire: bool, day: bool,
    qa07: bool, qa08: bool, qa10: bool, qa11: bool)

  /** `np.where(M11 != 0, (M08 - RthSub) / M11, fallback)` for one pixel. */
  function GuardedRatio(b: Bounds, m08: real, m11: real, fallback: real): real {
    if m11 != 0.0 then (m08 - b.rthSub) / m11 else fallback
  }

  /** The conjunction `ba_threshold` evaluates for one pixel. The two ratio
      tests use fallbacks that fail them when band M11 reads zero. */
  predicate BurnedPixel(b: Bounds, p: Pixel) {
    p.m07 < b.m07UB &&
    p.m08 > b.m08LB && p.m08 < b.m08UB &&
    p.m10 > b.m10LB && p.m10 < b.m10UB &&
    p.m11 > b.m11LB &&
    GuardedRatio(b, p.m08, p.m11, b.rthLB - 1.0) >= b.rthLB &&
    GuardedRatio(b, p.m08, p.m11, b.rth + 1.0) < b.rth &&
    p.nonFire && p.day &&
    p.qa07 && p.qa08 && p.qa10 && p.qa11
  }

  /** The burned-area rule stated directly: band windows, a defined ratio
      (M08 - RthSub) / M11 in [RthLB, Rth), a non-fire daytime pixel and
      good quality in all four bands. */
  lemma BurnedPixelMeaning(b: Bounds, p: Pixel)
    ensures BurnedPixel(b, p) <==>
      b.m08LB < p.m08 < b.m08UB && b.m10LB < p.m10 < b.m10UB &&
      p.m07 < b.m07UB && p.m11 > b.m11LB &&
      p.m11 != 0.0 && b.rthLB <= (p.m08 - b.rthSub) / p.m11 < b.rth &&
      p.nonFire && p.day && p.qa07 && p.qa08 && p.qa10 && p.qa11
  {
    if p.m11 == 0.0 {
      assert GuardedRatio(b, p.m08, p.m11, b.rthLB - 1.0) == b.rthLB - 1.0;
    }
  }

  /** The division guard is never what lets a pixel through: where M11
      reads zero no pixel is burned, whatever the thresholds. */
  lemma ZeroM11NeverBurned(b: Bounds, p: Pixel)
    requires p.m11 == 0.0
    ensures !BurnedPixel(b, p)
  {
    assert GuardedRatio(b, p.m08, p.m11, b.rthLB - 1.0) == b.rthLB - 1.0;
  }

  /** The four bands, their quality masks, the fire mask and the geolocation
      describe the same grid of pixels, and the geolocation carries solar
      zenith angles. */
  predicate Aligned(m07: VIIRSReflectanceFile, m08: VIIRSReflectanceFile, m10: VIIRSReflectanceFile,
                    m11: VIIRSReflectanceFile, af: ActiveFire, geo: GeoFile)
    reads m07, m08, m10, m11, af, geo
  {
    SameShape(m08.reflArray, m07.reflArray) && SameShape(m10.reflArray, m07.reflArray) &&
    SameShape(m11.reflArray, m07.reflArray) && SameShape(af.afArray, m07.reflArray) &&
    SameShape(m07.qa, m07.reflArray) && SameShape(m08.qa, m07.reflArray) &&
    SameShape(m10.qa, m07.reflArray) && SameShape(m11.qa, m07.reflArray) &&
    geo.solZen != null && SameShape(geo.solZen, m07.reflArray)
  }

  /** Four different band files. */
  predicate Distinct(m07: VIIRSReflectanceFile, m08: VIIRSReflectanceFile, m10: VIIRSReflectanceFile,
                     m11: VIIRSReflectanceFile) {
    m07 != m08 && m07 != m10 && m07 != m11 && m08 != m10 && m08 != m11 && m10 != m11
  }

  /** The pixel at (i, j) as the files hold it. */
  ghost function PixelAt(m07: VIIRSReflectanceFile, m08: VIIRSReflectanceFile, m10: VIIRSReflectanceFile,
                         m11: VIIRSReflectanceFile, af: ActiveFire, geo: GeoFile, zenith: real, i: nat, j: nat): Pixel
    reads m07, m08, m10, m11, m07.reflArray, m08.reflArray, m10.reflArray, m11.reflArray
    reads m07.qa, m08.qa, m10.qa, m11.qa, af, af.afArray, geo, geo.solZen
    requires Aligned(m07, m08, m10, m11, af, geo)
    requires i < m07.reflArray.Length0 && j < m07.reflArray.Length1
  {
    Pixel(m07.reflArray[i, j], m08.reflArray[i, j], m10.reflArray[i, j], m11.reflArray[i, j],
          af.afArray[i, j] == NonFireCode, geo.solZen[i, j] < zenith,
          m07.qa[i, j], m08.qa[i, j], m10.qa[i, j], m11.qa[i, j])
  }

  /** `ba_threshold`: corrects the four bands (each at most once, so that
      every band array then holds `Corrected` reflectances) and returns a new
      mask holding 1 exactly at the burned pixels. */
  method BaThreshold(b: Bounds, m07: VIIRSReflectanceFile, m08: VIIRSReflectanceFile, m10: VIIRSReflectanceFile,
                     m11: VIIRSReflectanceFile, af: ActiveFire, geo: GeoFile) returns (baCon: array2<int>)
    requires m07.Valid() && m08.Valid() && m10.Valid() && m11.Valid()
    requires Aligned(m07, m08, m10, m11, af, geo) && Distinct(m07, m08, m10, m11)
    modifies m07, m08, m10, m11
    ensures m07.Valid() && m08.Valid() && m10.Valid() && m11.Valid()
    ensures m07.corrected && m08.corrected && m10.corrected && m11.corrected
    ensures Unaltered(m07, old(m07.rawCounts), old(m07.scale), old(m07.offset), old(m07.qa), old(m07.reflArray))
    ensures Unaltered(m08, old(m08.rawCounts), old(m08.scale), old(m08.offset), old(m08.qa), old(m08.reflArray))
    ensures Unaltered(m10, old(m10.rawCounts), old(m10.scale), old(m10.offset), old(m10.qa), old(m10.reflArray))
    ensures Unaltered(m11, old(m11.rawCounts), old(m11.scale), old(m11.offset), old(m11.qa), old(m11.reflArray))
    ensures Aligned(m07, m08, m10, m11, af, geo)
    ensures fresh(baCon) && SameShape(baCon, m07.reflArray)
    ensures forall i, j :: 0 <= i < baCon.Length0 && 0 <= j < baCon.Length1 ==>
      baCon[i, j] == if BurnedPixel(b, PixelAt(m07, m08, m10, m11, af, geo, b.maxSolZen, i, j)) then 1 else 0
  {
    var r07, r08, r10, r11 := CorrectAll(m07, m08, m10, m11);
    var nonFire := af.GetNonFire();
    var day := geo.DayPixels(b.maxSolZen);
    baCon := Combine(b, r07, r08, r10, r11, nonFire, day, m07.qa, m08.qa, m10.qa, m11.qa);
  }

  /** The four `get_cor_refl` calls, one per band file. */
  method CorrectAll(m07: VIIRSReflectanceFile, m08: VIIRSReflectanceFile, m10: VIIRSReflectanceFile,
                    m11: VIIRSReflectanceFile) returns (r07: array2<real>, r08: array2<real>, r10: array2<real>, r11: array2<real>)
    requires m07.Valid() && m08.Valid() && m10.Valid() && m11.Valid()
    requires Distinct(m07, m08, m10, m11)
    modifies m07, m08, m10, m11
    ensures m07.Valid() && m08.Valid() && m10.Valid() && m11.Valid()
    ensures m07.corrected && m08.corrected && m10.corrected && m11.corrected
    ensures r07 == m07.reflArray && r08 == m08.reflArray && r10 == m10.reflArray && r11 == m11.reflArray
    ensures Unaltered(m07, old(m07.rawCounts), old(m07.scale), old(m07.offset), old(m07.qa), old(m07.reflArray))
    ensures Unaltered(m08, old(m08.rawCounts), old(m08.scale), old(m08.offset), old(m08.qa), old(m08.reflArray))
    ensures Unaltered(m10, old(m10.rawCounts), old(m10.scale), old(m10.offset), old(m10.qa), old(m10.reflArray))
    ensures Unaltered(m11, old(m11.rawCounts), old(m11.scale), old(m11.offset), old(m11.qa), old(m11.reflArray))
  {
    r07, r08 := CorrectPair(m07, m08);
    r10, r11 := CorrectPair(m10, m11);
  }

  /** Correction keeps a band's counts, factors and quality mask, and the
      shape of its array. */
  ghost predicate Unaltered(m: VIIRSReflectanceFile, raw: seq<seq<real>>, scale: real, offset: real,
                            qa: array2<bool>, refl: array2<real>)
    reads m
  {
    m.rawCounts == raw && m.scale == scale && m.offset == offset && m.qa == qa && SameShape(m.reflArray, refl)
  }

  method CorrectPair(a: VIIRSReflectanceFile, b: VIIRSReflectanceFile) returns (ra: array2<real>, rb: array2<real>)
    requires a.Valid() && b.Valid() && a != b
    modifies a, b
    ensures a.Valid() && b.Valid() && a.corrected && b.corrected
    ensures ra == a.reflArray && rb == b.reflArray
    ensures Unaltered(a, old(a.rawCounts), old(a.scale), old(a.offset), old(a.qa), old(a.reflArray))
    ensures Unaltered(b, old(b.rawCounts), old(b.scale), old(b.offset), old(b.qa), old(b.reflArray))
  {
    ra := a.GetCorRefl();
    rb := b.GetCorRefl();
  }

  /** The masked assignment `BaCon[...] = 1` on a new all-zero mask. */
  method Combine(b: Bounds, r07: array2<real>, r08: array2<real>, r10: array2<real>, r11: array2<real>,
                 nonFire: array2<bool>, day: array2<bool>,
                 q07: array2<bool>, q08: array2<bool>, q10: array2<bool>, q11: array2<bool>) returns (baCon: array2<int>)
    requires SameShape(r08, r07) && SameShape(r10, r07) && SameShape(r11, r07)
    requires SameShape(nonFire, r07) && SameShape(day, r07)
    requires SameShape(q07, r07) && SameShape(q08, r07) && SameShape(q10, r07) && SameShape(q11, r07)
    ensures fresh(baCon) && SameShape(baCon, r07)
    ensures forall i, j :: 0 <= i < baCon.Length0 && 0 <= j < baCon.Length1 ==>
      baCon[i, j] == if BurnedPixel(b, Pixel(r07[i, j], r08[i, j], r10[i, j], r11[i, j], nonFire[i, j], day[i, j],
                                             q07[i, j], q08[i, j], q10[i, j], q11[i, j])) then 1 else 0
  {
    baCon := new int[r07.Length0, r07.Length1]((i, j) reads r07, r08, r10, r11, nonFire, day, q07, q08, q10, q11 =>
      if 0 <= i < r07.Length0 && 0 <= j < r07.Length1 &&
         BurnedPixel(b, Pixel(r07[i, j], r08[i, j], r10[i, j], r11[i, j], nonFire[i, j], day[i, j],
                              q07[i, j], q08[i, j], q10[i, j], q11[i, j]))
      then 1 else 0);
  }
}
