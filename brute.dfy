/** Model of scripts/viirs_brute.py: the mixed-radix index counter `inc_idx`
    and the two batch planners built on it. */
module Brute {
  import opened Wrappers
  import opened PyText
  import opened Config

  // ---------------------------------------------------------------------------
  // The odometer: `inc_idx` treats an index vector as a little-endian number
  // whose digits range over 0..maxval-1.
  // ---------------------------------------------------------------------------

  /** `n` zero digits. */
  function Zeros(n: nat): (z: seq<int>)
    ensures |z| == n && forall k :: 0 <= k < n ==> z[k] == 0
  {
    seq(n, _ => 0)
  }

  /** The digit vector `inc_idx` leaves behind: digit 0 is bumped; a digit that
      reaches `maxval` is reset to 0 and the carry moves one place up; the last
      digit wraps to 0 instead of carrying. */
  function Inc(s: seq<int>, maxval: int): (r: seq<int>)
    requires |s| > 0
    ensures |r| == |s|
  {
    if s[0] + 1 < maxval then [s[0] + 1] + s[1..]
    else if |s| == 1 then [0]
    else [0] + Inc(s[1..], maxval)
  }

  /** Every digit lies in 0..maxval-1. */
  ghost predicate InRange(s: seq<int>, maxval: int) {
    forall k :: 0 <= k < |s| ==> 0 <= s[k] < maxval
  }

  /** The number a digit vector stands for, digit 0 least significant. */
  ghost function Val(s: seq<int>, maxval: int): int {
    if |s| == 0 then 0 else s[0] + maxval * Val(s[1..], maxval)
  }

  ghost function Pow(b: nat, n: nat): nat {
    if n == 0 then 1 else b * Pow(b, n - 1)
  }

  /** `Inc` applied `n` times. */
  ghost function Iter(s: seq<int>, maxval: int, n: nat): (r: seq<int>)
    requires |s| > 0
    ensures |r| == |s|
  {
    if n == 0 then s else Inc(Iter(s, maxval, n - 1), maxval)
  }

  /** Carry propagation: the digits below the first one that does not
      overflow become 0, that digit goes up by one, the digits above it keep
      their value. */
  lemma {:induction false} IncCarry(s: seq<int>, maxval: int, p: nat)
    requires p < |s|
    requires forall k :: 0 <= k < p ==> s[k] + 1 >= maxval
    requires s[p] + 1 < maxval
    ensures Inc(s, maxval) == Zeros(p) + [s[p] + 1] + s[p + 1..]
  {
    if p > 0 {
      IncCarry(s[1..], maxval, p - 1);
      assert Inc(s, maxval) == [0] + Inc(s[1..], maxval);
      assert s[1..][p..] == s[p + 1..];
      assert [0] + Zeros(p - 1) == Zeros(p);
    }
  }

  /** When every digit overflows, the whole vector wraps to zeros. */
  lemma {:induction false} IncWrap(s: seq<int>, maxval: int)
    requires |s| > 0
    requires forall k :: 0 <= k < |s| ==> s[k] + 1 >= maxval
    ensures Inc(s, maxval) == Zeros(|s|)
  {
    if |s| > 1 {
      IncWrap(s[1..], maxval);
      assert [0] + Zeros(|s| - 1) == Zeros(|s|);
    }
  }

  /** `inc_idx(idx, maxval)`: increments the counter in place. */
  method IncIdx(idx: array<int>, maxval: int)
    requires idx.Length > 0
    modifies idx
    ensures idx[..] == Inc(old(idx[..]), maxval)
  {
    ghost var before := idx[..];
    var i := CarryLoop(idx, maxval);
    if i == idx.Length && !(idx[idx.Length - 1] < maxval) {
      idx[idx.Length - 1] := 0;
      IncWrap(before, maxval);
      assert idx[..] == Zeros(idx.Length);
    } else {
      IncCarry(before, maxval, i - 1);
      assert idx[..] == Zeros(i - 1) + [before[i - 1] + 1] + before[i..];
    }
  }

  /** The `while` loop of `inc_idx`: bumps digit 0 and resets and carries
      past every digit that reaches maxval, stopping after the first that
      does not or after the last digit. The last digit is left bumped. */
  method CarryLoop(idx: array<int>, maxval: int) returns (i: nat)
    requires idx.Length > 0
    modifies idx
    ensures 0 < i <= idx.Length
    ensures forall k :: 0 <= k < i - 1 ==> idx[k] == 0 && old(idx[k]) + 1 >= maxval
    ensures idx[i - 1] == old(idx[i - 1]) + 1
    ensures idx[i - 1] < maxval || i == idx.Length
    ensures forall k :: i <= k < idx.Length ==> idx[k] == old(idx[k])
  {
    i := 0;
    var done := false;
    while !done
      invariant 0 <= i <= idx.Length
      invariant !done ==> i < idx.Length
      invariant done ==> 0 < i
      invariant forall k :: 0 <= k < i - 1 ==> idx[k] == 0 && old(idx[k]) + 1 >= maxval
      invariant 0 < i ==> idx[i - 1] == old(idx[i - 1]) + 1
      invariant !done && 0 < i ==> old(idx[i - 1]) + 1 >= maxval
      invariant done ==> idx[i - 1] < maxval || i == idx.Length
      invariant forall k :: i <= k < idx.Length ==> idx[k] == old(idx[k])
      decreases idx.Length - i
    {
      if i != 0 {
        idx[i - 1] := 0;
      }
      idx[i] := idx[i] + 1;
      done := idx[i] < maxval || i == idx.Length - 1;
      i := i + 1;
    }
  }

  // ---------------------------------------------------------------------------
  // Arithmetic meaning of the odometer.
  // ---------------------------------------------------------------------------

  lemma MulMono(m: int, a: int, b: int)
    requires 0 <= m && a <= b
    ensures m * a <= m * b
  {
    assert m * b - m * a == m * (b - a);
  }

  lemma Distrib(m: int, p: int)
    ensures m * (p - 1) == m * p - m
  {
  }

  lemma {:induction false} PowPositive(b: int, n: nat)
    requires b >= 1
    ensures Pow(b, n) >= 1
  {
    if n > 0 {
      PowPositive(b, n - 1);
      MulMono(b, 1, Pow(b, n - 1));
    }
  }

  /** A vector of `n` in-range digits denotes a number below maxval^n. */
  lemma {:induction false} ValBound(s: seq<int>, maxval: int)
    requires maxval >= 1 && InRange(s, maxval)
    ensures 0 <= Val(s, maxval) < Pow(maxval, |s|)
  {
    if |s| > 0 {
      ValBound(s[1..], maxval);
      var v, p := Val(s[1..], maxval), Pow(maxval, |s| - 1);
      assert Val(s, maxval) == s[0] + maxval * v;
      assert Pow(maxval, |s|) == maxval * p;
      MulMono(maxval, 0, v);
      MulMono(maxval, v, p - 1);
      Distrib(maxval, p);
    }
  }

  lemma {:induction false} ValZeros(n: nat, maxval: int)
    ensures Val(Zeros(n), maxval) == 0
  {
    if n > 0 {
      ValZeros(n - 1, maxval);
      assert Zeros(n)[1..] == Zeros(n - 1);
    }
  }

  /** Digit-and-carry uniqueness: a + m*x == b + m*y with both digits in
      0..m-1 forces equal digits and equal carries. */
  lemma DigitUnique(m: int, a: int, b: int, x: int, y: int)
    requires 0 <= a < m && 0 <= b < m
    requires a + m * x == b + m * y
    ensures a == b && x == y
  {
    if x < y {
      MulMono(m, x + 1, y);
      assert false;
    } else if y < x {
      MulMono(m, y + 1, x);
      assert false;
    }
  }

  /** Two in-range digit vectors of equal length that denote the same number
      are equal. */
  lemma {:induction false} ValInjective(s: seq<int>, t: seq<int>, maxval: int)
    requires |s| == |t| && InRange(s, maxval) && InRange(t, maxval)
    requires Val(s, maxval) == Val(t, maxval)
    ensures s == t
  {
    if |s| > 0 {
      DigitUnique(maxval, s[0], t[0], Val(s[1..], maxval), Val(t[1..], maxval));
      ValInjective(s[1..], t[1..], maxval);
      assert s == [s[0]] + s[1..] && t == [t[0]] + t[1..];
    }
  }

  /** `inc_idx` adds one modulo maxval^len and keeps every digit in range. */
  lemma {:induction false} IncValue(s: seq<int>, maxval: int)
    requires maxval >= 1 && |s| > 0 && InRange(s, maxval)
    ensures InRange(Inc(s, maxval), maxval)
    ensures Val(Inc(s, maxval), maxval) ==
            if Val(s, maxval) + 1 == Pow(maxval, |s|) then 0 else Val(s, maxval) + 1
  {
    if s[0] + 1 < maxval {
      IncValueNoCarry(s, maxval);
    } else if |s| == 1 {
      var r := Inc(s, maxval);
      assert r == [0];
      assert Val(r[1..], maxval) == 0;
    } else {
      IncValue(s[1..], maxval);
      IncValueCarry(s, maxval);
    }
  }

  /** The case of `IncValue` where digit 0 does not overflow. */
  lemma IncValueNoCarry(s: seq<int>, maxval: int)
    requires maxval >= 1 && |s| > 0 && InRange(s, maxval) && s[0] + 1 < maxval
    ensures InRange(Inc(s, maxval), maxval)
    ensures Val(Inc(s, maxval), maxval) == Val(s, maxval) + 1
    ensures Val(s, maxval) + 1 != Pow(maxval, |s|)
  {
    var r := Inc(s, maxval);
    var rest := s[1..];
    assert r[1..] == rest;
    ValBound(rest, maxval);
    var v, p := Val(rest, maxval), Pow(maxval, |s| - 1);
    assert Val(s, maxval) == s[0] + maxval * v;
    assert Val(r, maxval) == s[0] + 1 + maxval * v;
    assert Pow(maxval, |s|) == maxval * p;
    MulMono(maxval, v, p - 1);
    Distrib(maxval, p);
  }

  /** The case of `IncValue` where digit 0 overflows and the carry moves up,
      given the property for the higher digits. */
  lemma IncValueCarry(s: seq<int>, maxval: int)
    requires maxval >= 1 && |s| > 1 && InRange(s, maxval) && s[0] + 1 >= maxval
    requires InRange(Inc(s[1..], maxval), maxval)
    requires Val(Inc(s[1..], maxval), maxval) ==
             if Val(s[1..], maxval) + 1 == Pow(maxval, |s| - 1) then 0 else Val(s[1..], maxval) + 1
    ensures InRange(Inc(s, maxval), maxval)
    ensures Val(Inc(s, maxval), maxval) ==
            if Val(s, maxval) + 1 == Pow(maxval, |s|) then 0 else Val(s, maxval) + 1
  {
    var r := Inc(s, maxval);
    var rest := s[1..];
    var up := Inc(rest, maxval);
    assert r == [0] + up;
    assert r[1..] == up;
    assert InRange(r, maxval) by {
      forall k | 0 <= k < |r| ensures 0 <= r[k] < maxval {
        if k > 0 {
          assert r[k] == up[k - 1];
        }
      }
    }
    var v, p := Val(rest, maxval), Pow(maxval, |s| - 1);
    var w := Val(up, maxval);
    assert Val(r, maxval) == maxval * w;
    assert s[0] == maxval - 1;
    assert Val(s, maxval) == s[0] + maxval * v;
    Distrib(maxval, v + 1);
    assert Val(s, maxval) + 1 == maxval * (v + 1);
    assert Pow(maxval, |s|) == maxval * p;
    if v + 1 == p {
      assert w == 0;
      assert Val(r, maxval) == 0;
    } else {
      assert w == v + 1;
      if maxval * (v + 1) == maxval * p {
        DigitUnique(maxval, 0, 0, v + 1, p);
      }
    }
  }

  /** `n` increments from all zeros reach the digit vector of `n`. */
  lemma {:induction false} IterValue(len: nat, maxval: int, n: nat)
    requires maxval >= 1 && len > 0 && n < Pow(maxval, len)
    ensures InRange(Iter(Zeros(len), maxval, n), maxval)
    ensures Val(Iter(Zeros(len), maxval, n), maxval) == n
  {
    if n == 0 {
      ValZeros(len, maxval);
    } else {
      IterValue(len, maxval, n - 1);
      IncValue(Iter(Zeros(len), maxval, n - 1), maxval);
    }
  }

  /** Enumeration by repeated `inc_idx` from all zeros: the first
      maxval^len states are pairwise distinct. */
  lemma OdometerDistinct(len: nat, maxval: int, n1: nat, n2: nat)
    requires maxval >= 1 && len > 0
    requires n1 < Pow(maxval, len) && n2 < Pow(maxval, len)
    requires Iter(Zeros(len), maxval, n1) == Iter(Zeros(len), maxval, n2)
    ensures n1 == n2
  {
    IterValue(len, maxval, n1);
    IterValue(len, maxval, n2);
  }

  /** Only the 0th of those states is all zeros. */
  lemma OdometerNoEarlyZero(len: nat, maxval: int, n: nat)
    requires maxval >= 1 && len > 0
    requires 0 < n < Pow(maxval, len)
    ensures Iter(Zeros(len), maxval, n) != Zeros(len)
  {
    ValZeros(len, maxval);
    IterValue(len, maxval, n);
  }

  /** Every in-range digit vector is among them, at the position it
      denotes. */
  lemma OdometerCovers(len: nat, maxval: int, s: seq<int>)
    requires maxval >= 1 && len > 0
    requires |s| == len && InRange(s, maxval)
    ensures 0 <= Val(s, maxval) < Pow(maxval, len)
    ensures Iter(Zeros(len), maxval, Val(s, maxval)) == s
  {
    ValBound(s, maxval);
    IterValue(len, maxval, Val(s, maxval));
    ValInjective(Iter(Zeros(len), maxval, Val(s, maxval)), s, maxval);
  }

  /** The increment after the last of them is back at all zeros. */
  lemma OdometerWraps(len: nat, maxval: int)
    requires maxval >= 1 && len > 0
    ensures Iter(Zeros(len), maxval, Pow(maxval, len)) == Zeros(len)
  {
    var z := Zeros(len);
    var p := Pow(maxval, len);
    ValZeros(len, maxval);
    PowPositive(maxval, len);
    IterValue(len, maxval, p - 1);
    IncValue(Iter(z, maxval, p - 1), maxval);
    assert InRange(z, maxval);
    ValInjective(Iter(z, maxval, p), z, maxval);
  }

  // ---------------------------------------------------------------------------
  // reflectance_deltas: every combination of -delta, 0, +delta on the five
  // raw reflectance thresholds.
  // ---------------------------------------------------------------------------

  /** Positions in the vector of M07UB, M08LB, M08UB, M10LB and M11LB: the
      first six float parameters without M10UB. */
  const RawReflIndices: seq<nat> := [0, 1, 2, 3, 5]

  /** The multipliers a digit 0, 1, 2 of the index vector selects. */
  const DeltaMult: seq<int> := [-1, 0, 1]

  /** The number of configurations reflectance_deltas produces: 3^5. */
  const DeltaCount: nat := 243

  /** A vector from get_vector: floats in the ten float positions. */
  predicate FloatPart(v: ConfigVector) {
    forall k :: 0 <= k < 10 ==> v[k].Float?
  }

  /** The position of vector field `i` among RawReflIndices, or -1. */
  function Slot(i: nat): (k: int)
    ensures -1 <= k < 5
    ensures k >= 0 ==> RawReflIndices[k] == i
    ensures k < 0 ==> i !in RawReflIndices
  {
    if i < 4 then i else if i == 5 then 4 else -1
  }

  /** `ref_vector._replace(**cur_params)` for the multiplier digits `dm`:
      each raw reflectance threshold moves by its multiplier times delta. */
  function Perturbed(ref: ConfigVector, dm: seq<int>, delta: real): (v: ConfigVector)
    requires FloatPart(ref)
    requires |dm| == 5 && forall k :: 0 <= k < 5 ==> 0 <= dm[k] < 3
    ensures FloatPart(v)
    ensures forall k :: 0 <= k < 5 ==>
              v[RawReflIndices[k]] == Float(ref[RawReflIndices[k]].r + DeltaMult[dm[k]] as real * delta)
    ensures v[4] == ref[4] && forall i :: 6 <= i < 12 ==> v[i] == ref[i]
  {
    seq(12, i requires 0 <= i < 12 =>
      if Slot(i) >= 0 then Float(ref[i].r + DeltaMult[dm[Slot(i)]] as real * delta) else ref[i])
  }

  /** The vector of the n-th configuration reflectance_deltas builds: the
      reference perturbed by the multipliers the index vector holds after
      n increments. */
  ghost function DeltaVector(ref: ConfigVector, delta: real, n: nat): (v: ConfigVector)
    requires FloatPart(ref) && n < DeltaCount
    ensures InRange(Iter(Zeros(5), 3, n), 3)
    ensures v == Perturbed(ref, Iter(Zeros(5), 3, n), delta)
  {
    DeltaDigits(n);
    Perturbed(ref, Iter(Zeros(5), 3, n), delta)
  }

  /** The n-th configuration reflectance_deltas builds, with run0 the
      counter before the first. */
  ghost function DeltaConfig(template: ConfigObject, ref: ConfigVector, delta: real, run0: int, n: nat)
    : Result<ConfigObject, Error>
    requires FloatPart(ref) && n < DeltaCount
  {
    Merged(SequentialVIIRSConfig, DeltaVector(ref, delta, n), template, run0 + n)
  }

  lemma AllZero(s: seq<int>)
    ensures (forall i :: 0 <= i < |s| ==> s[i] == 0) <==> s == Zeros(|s|)
  {
  }

  /** The configurations built so far are the first |configs| of the plan. */
  ghost predicate DeltaPrefix(configs: seq<ConfigObject>, template: ConfigObject, ref: ConfigVector,
                              delta: real, run0: int)
    requires FloatPart(ref) && |configs| <= DeltaCount
  {
    forall k :: 0 <= k < |configs| ==> DeltaConfig(template, ref, delta, run0, k) == Ok(configs[k])
  }

  lemma DeltaPrefixAppend(configs: seq<ConfigObject>, c: ConfigObject, template: ConfigObject,
                          ref: ConfigVector, delta: real, run0: int)
    requires FloatPart(ref) && |configs| < DeltaCount
    requires DeltaPrefix(configs, template, ref, delta, run0)
    requires DeltaConfig(template, ref, delta, run0, |configs|) == Ok(c)
    ensures DeltaPrefix(configs + [c], template, ref, delta, run0)
  {
  }

  /** The index vector after n increments is a valid multiplier choice, and
      it is all zeros again exactly after 243 increments. */
  lemma DeltaDigits(n: nat)
    requires n <= DeltaCount
    ensures n < DeltaCount ==> InRange(Iter(Zeros(5), 3, n), 3)
    ensures 0 < n ==> (Iter(Zeros(5), 3, n) == Zeros(5) <==> n == DeltaCount)
  {
    var len := 5;
    assert Pow(3, len) == DeltaCount;
    if n < DeltaCount {
      IterValue(5, 3, n);
      if 0 < n {
        OdometerNoEarlyZero(len, 3, n);
      }
    } else {
      OdometerWraps(len, 3);
    }
  }

  /** `reflectance_deltas(template, delta)` with the default
      SequentialVIIRSConfig class: the reference vector is read from the
      template, then `DeltaConfigs` enumerates the 243 perturbations. */
  method ReflectanceDeltas(template: ConfigObject, delta: real, counter: RunCounter)
    returns (r: Result<seq<ConfigObject>, Error>)
    modifies counter
    ensures VectorOf(template).Err? ==> r == Err(VectorOf(template).error) && counter.run == old(counter.run)
    ensures VectorOf(template).Ok? ==> FloatPart(VectorOf(template).value)
    ensures VectorOf(template).Ok? && !MergeSucceeds(template) ==>
              r == Err(DeltaConfig(template, VectorOf(template).value, delta, old(counter.run), 0).error) &&
              counter.run == old(counter.run) + (if MissingFrom(template.attrs, 0).None? then 1 else 0)
    ensures VectorOf(template).Ok? && MergeSucceeds(template) ==>
              r.Ok? && |r.value| == DeltaCount && counter.run == old(counter.run) + DeltaCount &&
              DeltaPrefix(r.value, template, VectorOf(template).value, delta, old(counter.run))
  {
    var refVector := GetVector(template);
    if refVector.Err? {
      return Err(refVector.error);
    }
    r := DeltaConfigs(template, refVector.value, delta, counter);
  }

  /** One pass of the loop body: the perturbed vector for the current index
      vector, merged into the template. */
  method DeltaStep(template: ConfigObject, ref: ConfigVector, delta: real, dmIdx: array<int>,
                   counter: RunCounter, ghost run0: int, ghost configs: seq<ConfigObject>)
    returns (config: Result<ConfigObject, Error>)
    requires FloatPart(ref) && |configs| < DeltaCount
    requires dmIdx.Length == 5 && dmIdx[..] == Iter(Zeros(5), 3, |configs|)
    requires counter.run == run0 + |configs|
    requires DeltaPrefix(configs, template, ref, delta, run0)
    modifies counter
    ensures config.Err? ==> config == DeltaConfig(template, ref, delta, run0, |configs|)
    ensures config.Ok? ==> DeltaPrefix(configs + [config.value], template, ref, delta, run0)
    ensures config.Ok? <==> MergeSucceeds(template)
    ensures MergeSucceeds(template) ==> MissingFrom(template.attrs, 0).None?
    ensures counter.run == run0 + |configs| + (if MissingFrom(template.attrs, 0).None? then 1 else 0)
  {
    DeltaDigits(|configs|);
    var vec := Perturbed(ref, dmIdx[..], delta);
    config := MergeIntoTemplate(SequentialVIIRSConfig, vec, template, 0, counter);
    if MergeSucceeds(template) {
      NoneMissing(template.attrs);
    }
    if config.Ok? {
      DeltaPrefixAppend(configs, config.value, template, ref, delta, run0);
    }
  }

  /** The loop of `reflectance_deltas`: for each multiplier choice, in
      odometer order starting from all -1, merge the perturbed vector into
      the template; stop when the index vector is all zeros again. The first
      merge that raises ends the run. */
  method DeltaConfigs(template: ConfigObject, ref: ConfigVector, delta: real, counter: RunCounter)
    returns (r: Result<seq<ConfigObject>, Error>)
    requires FloatPart(ref)
    modifies counter
    ensures !MergeSucceeds(template) ==>
              r == Err(DeltaConfig(template, ref, delta, old(counter.run), 0).error) &&
              counter.run == old(counter.run) + (if MissingFrom(template.attrs, 0).None? then 1 else 0)
    ensures MergeSucceeds(template) ==>
              r.Ok? && |r.value| == DeltaCount && counter.run == old(counter.run) + DeltaCount &&
              DeltaPrefix(r.value, template, ref, delta, old(counter.run))
  {
    ghost var run0 := counter.run;
    var dmIdx := new int[5](_ => 0);
    var configs: seq<ConfigObject> := [];
    var done := false;
    ghost var n: nat := 0;
    assert dmIdx[..] == Zeros(5);
    while !done
      invariant n <= DeltaCount
      invariant dmIdx[..] == Iter(Zeros(5), 3, n)
      invariant done <==> n == DeltaCount
      invariant counter.run == run0 + n
      invariant n > 0 ==> MergeSucceeds(template)
      invariant |configs| == n
      invariant DeltaPrefix(configs, template, ref, delta, run0)
      decreases DeltaCount - n
    {
      var config := DeltaStep(template, ref, delta, dmIdx, counter, run0, configs);
      if config.Err? {
        return Err(config.error);
      }
      configs := configs + [config.value];
      IncIdx(dmIdx, 3);
      n := n + 1;
      DeltaDigits(n);
      var digits := dmIdx[..];
      done := forall i :: 0 <= i < 5 ==> digits[i] == 0;
      AllZero(digits);
    }
    r := Ok(configs);
  }

  /** Every choice of multipliers appears in the plan, at exactly one
      position: the number its digits denote. */
  lemma DeltaPlanCovers(dm: seq<int>)
    requires |dm| == 5 && InRange(dm, 3)
    ensures 0 <= Val(dm, 3) < DeltaCount && Iter(Zeros(5), 3, Val(dm, 3)) == dm
    ensures forall n :: 0 <= n < DeltaCount && Iter(Zeros(5), 3, n) == dm ==> n == Val(dm, 3)
  {
    var len := 5;
    assert Pow(3, len) == DeltaCount;
    OdometerCovers(len, 3, dm);
    forall n | 0 <= n < DeltaCount && Iter(Zeros(5), 3, n) == dm ensures n == Val(dm, 3) {
      OdometerDistinct(len, 3, n, Val(dm, 3));
    }
  }

  /** The plan passes the reference vector itself: digits 1, 1, 1, 1, 1
      (all multipliers 0) denote position 121. Together with the first
      and last positions this gives 243 configurations, one more than the
      242 the documentation of reflectance_deltas announces. */
  lemma DeltaPlanReference(ref: ConfigVector, delta: real)
    requires FloatPart(ref)
    ensures Val([1, 1, 1, 1, 1], 3) == 121 && Perturbed(ref, [1, 1, 1, 1, 1], delta) == ref
  {
    var mid := Perturbed(ref, [1, 1, 1, 1, 1], delta);
    forall i | 0 <= i < 12 ensures mid[i] == ref[i] {
      if i < 4 || i == 5 {
        assert ref[i] == Float(ref[i].r);
      }
    }
  }

  /** The plan starts at all -delta: position 0, all digits 0. */
  lemma DeltaPlanFirst(ref: ConfigVector, delta: real)
    requires FloatPart(ref)
    ensures forall k :: 0 <= k < 5 ==>
              Perturbed(ref, Zeros(5), delta)[RawReflIndices[k]] == Float(ref[RawReflIndices[k]].r - delta)
  {
  }

  /** The plan ends at all +delta: position 242, all digits 2. */
  lemma DeltaPlanLast(ref: ConfigVector, delta: real)
    requires FloatPart(ref)
    ensures Val([2, 2, 2, 2, 2], 3) == DeltaCount - 1
    ensures forall k :: 0 <= k < 5 ==>
              Perturbed(ref, [2, 2, 2, 2, 2], delta)[RawReflIndices[k]] == Float(ref[RawReflIndices[k]].r + delta)
  {
  }

  /** What the n-th configuration of a successful plan holds: the perturbed
      vector (read back through get_vector), run id run0 + n, and a ShapePath
      named after that run id beside the template's. */
  lemma DeltaConfigContents(template: ConfigObject, ref: ConfigVector, delta: real, run0: int, n: nat)
    requires FloatPart(ref) && ref[10].Int? && ref[11].Int?
    requires MergeSucceeds(template) && n < DeltaCount
    ensures DeltaConfig(template, ref, delta, run0, n).Ok?
    ensures var c := DeltaConfig(template, ref, delta, run0, n).value;
            VectorOf(c) == Ok(DeltaVector(ref, delta, n)) &&
            run_id in c.attrs && c.attrs[run_id] == Int(run0 + n) &&
            ShapePath in c.attrs && c.attrs[ShapePath].Str? &&
            Basename(c.attrs[ShapePath].s) == FormatInt(run0 + n) &&
            Dirname(c.attrs[ShapePath].s) == Dirname(template.attrs[ShapePath].s)
  {
    var vec := DeltaVector(ref, delta, n);
    assert FloatPart(vec) && vec[10].Int? && vec[11].Int?;
    var c := DeltaConfig(template, ref, delta, run0, n);
    assert c == Merged(SequentialVIIRSConfig, vec, template, run0 + n);
    SequentialMergeContents(template, vec, run0 + n, c);
  }

  /** A successful sequential merge of a well-typed vector: the vector reads
      back, and the run id names both the run_id field and the directory. */
  lemma SequentialMergeContents(template: ConfigObject, vec: ConfigVector, runId: int,
                                c: Result<ConfigObject, Error>)
    requires FloatPart(vec) && vec[10].Int? && vec[11].Int?
    requires MergeSucceeds(template)
    requires c == Merged(SequentialVIIRSConfig, vec, template, runId)
    ensures c.Ok? && VectorOf(c.value) == Ok(vec)
    ensures run_id in c.value.attrs && c.value.attrs[run_id] == Int(runId)
    ensures ShapePath in c.value.attrs && c.value.attrs[ShapePath].Str?
    ensures Basename(c.value.attrs[ShapePath].s) == FormatInt(runId)
    ensures Dirname(c.value.attrs[ShapePath].s) == Dirname(template.attrs[ShapePath].s)
  {
    SequentialMergeVector(template, vec, runId, c);
    MergedRunIdentity(SequentialVIIRSConfig, vec, template, runId);
  }

  lemma SequentialMergeVector(template: ConfigObject, vec: ConfigVector, runId: int,
                              c: Result<ConfigObject, Error>)
    requires FloatPart(vec) && vec[10].Int? && vec[11].Int?
    requires MergeSucceeds(template)
    requires c == Merged(SequentialVIIRSConfig, vec, template, runId)
    ensures c.Ok? && VectorOf(c.value) == Ok(vec)
  {
    MergeThenGetVector(SequentialVIIRSConfig, vec, template, runId);
  }

  // ---------------------------------------------------------------------------
  // create_params: a grid over RthSub (outer) and Rth (inner).
  // ---------------------------------------------------------------------------

  /** `np.arange(0.03, 0.06, 0.01)` and `np.arange(0.76, 0.81, 0.01)`, taken at
      their decimal values. */
  const RthSubRange: seq<real> := [0.03, 0.04, 0.05]
  const RthRange: seq<real> := [0.76, 0.77, 0.78, 0.79, 0.80]

  /** `template_vector._replace(RthSub=a, Rth=b)`. */
  function GridVector(ref: ConfigVector, a: real, b: real): (v: ConfigVector)
    ensures v[6] == Float(a) && v[7] == Float(b)
    ensures forall k :: 0 <= k < 12 && k != 6 && k != 7 ==> v[k] == ref[k]
  {
    ref[6 := Float(a)][7 := Float(b)]
  }

  /** Grid position n pairs the (n / |rthRange|)-th RthSub with the
      (n % |rthRange|)-th Rth; its run id is run0 + n. */
  ghost function GridConfig(template: ConfigObject, ref: ConfigVector, rthSubRange: seq<real>,
                            rthRange: seq<real>, run0: int, n: nat): Result<ConfigObject, Error>
    requires n < |rthSubRange| * |rthRange|
  {
    GridIndex(n, |rthSubRange|, |rthRange|);
    Merged(SequentialVIIRSConfig,
           GridVector(ref, rthSubRange[n / |rthRange|], rthRange[n % |rthRange|]), template, run0 + n)
  }

  /** Row-major positions: a position below rows * cols has a row below
      rows and a column below cols. */
  lemma GridIndex(n: nat, rows: nat, cols: nat)
    requires n < rows * cols
    ensures cols > 0 && n / cols < rows && n % cols < cols
  {
    if cols == 0 {
      assert false;
    }
    var q, m := n / cols, n % cols;
    assert n == cols * q + m;
    if q >= rows {
      MulMono(cols, rows, q);
      assert false;
    }
  }

  /** Row i, column j sits at position i * cols + j, and that position
      splits back into i and j. */
  lemma GridIndexOf(i: nat, j: nat, rows: nat, cols: nat)
    requires i < rows && j < cols
    ensures i * cols + j < rows * cols
    ensures (i * cols + j) / cols == i && (i * cols + j) % cols == j
  {
    var n := i * cols + j;
    MulMono(cols, i + 1, rows);
    assert n < rows * cols by {
      assert cols * (i + 1) == i * cols + cols;
      assert cols * rows == rows * cols;
    }
    var q, m := n / cols, n % cols;
    assert j + cols * i == m + cols * q;
    DigitUnique(cols, j, m, i, q);
  }

  ghost predicate GridPrefix(configs: seq<ConfigObject>, template: ConfigObject, ref: ConfigVector,
                             rthSubRange: seq<real>, rthRange: seq<real>, run0: int)
    requires |configs| <= |rthSubRange| * |rthRange|
  {
    forall k :: 0 <= k < |configs| ==>
      GridConfig(template, ref, rthSubRange, rthRange, run0, k) == Ok(configs[k])
  }

  lemma GridPrefixAppend(configs: seq<ConfigObject>, c: ConfigObject, template: ConfigObject,
                         ref: ConfigVector, rthSubRange: seq<real>, rthRange: seq<real>, run0: int)
    requires |configs| < |rthSubRange| * |rthRange|
    requires GridPrefix(configs, template, ref, rthSubRange, rthRange, run0)
    requires GridConfig(template, ref, rthSubRange, rthRange, run0, |configs|) == Ok(c)
    ensures GridPrefix(configs + [c], template, ref, rthSubRange, rthRange, run0)
  {
  }

  /** One pass of the inner loop body. */
  method GridStep(template: ConfigObject, ref: ConfigVector, rthSubRange: seq<real>, rthRange: seq<real>,
                  i: nat, j: nat, counter: RunCounter, ghost run0: int, ghost configs: seq<ConfigObject>)
    returns (config: Result<ConfigObject, Error>)
    requires i < |rthSubRange| && j < |rthRange|
    requires |configs| == i * |rthRange| + j
    requires counter.run == run0 + |configs|
    requires |configs| < |rthSubRange| * |rthRange|
    requires GridPrefix(configs, template, ref, rthSubRange, rthRange, run0)
    modifies counter
    ensures config.Err? ==> config == GridConfig(template, ref, rthSubRange, rthRange, run0, |configs|)
    ensures config.Ok? ==> (
              |configs| + 1 <= |rthSubRange| * |rthRange| &&
              GridPrefix(configs + [config.value], template, ref, rthSubRange, rthRange, run0))
    ensures config.Ok? <==> MergeSucceeds(template)
    ensures MergeSucceeds(template) ==> MissingFrom(template.attrs, 0).None?
    ensures counter.run == run0 + |configs| + (if MissingFrom(template.attrs, 0).None? then 1 else 0)
  {
    ghost var n := |configs|;
    GridIndexOf(i, j, |rthSubRange|, |rthRange|);
    assert n / |rthRange| == i && n % |rthRange| == j;
    var vec := GridVector(ref, rthSubRange[i], rthRange[j]);
    config := MergeIntoTemplate(SequentialVIIRSConfig, vec, template, 0, counter);
    assert config == GridConfig(template, ref, rthSubRange, rthRange, run0, n);
    if MergeSucceeds(template) {
      NoneMissing(template.attrs);
    }
    if config.Ok? {
      GridPrefixAppend(configs, config.value, template, ref, rthSubRange, rthRange, run0);
    }
  }

  /** The loops of `create_params` over explicit ranges. */
  method GridConfigs(template: ConfigObject, ref: ConfigVector, rthSubRange: seq<real>, rthRange: seq<real>,
                     counter: RunCounter)
    returns (r: Result<seq<ConfigObject>, Error>)
    modifies counter
    ensures |rthSubRange| * |rthRange| == 0 ==> r == Ok([]) && counter.run == old(counter.run)
    ensures 0 < |rthSubRange| * |rthRange| && !MergeSucceeds(template) ==>
              r == Err(GridConfig(template, ref, rthSubRange, rthRange, old(counter.run), 0).error) &&
              counter.run == old(counter.run) + (if MissingFrom(template.attrs, 0).None? then 1 else 0)
    ensures 0 < |rthSubRange| * |rthRange| && MergeSucceeds(template) ==> (
              r.Ok? && |r.value| == |rthSubRange| * |rthRange| &&
              counter.run == old(counter.run) + |rthSubRange| * |rthRange| &&
              GridPrefix(r.value, template, ref, rthSubRange, rthRange, old(counter.run)))
  {
    ghost var run0 := counter.run;
    var cols := |rthRange|;
    var configs: seq<ConfigObject> := [];
    for i := 0 to |rthSubRange|
      invariant |configs| == i * cols
      invariant i * cols <= |rthSubRange| * cols
      invariant counter.run == run0 + |configs|
      invariant |configs| > 0 ==> MergeSucceeds(template)
      invariant GridPrefix(configs, template, ref, rthSubRange, rthRange, run0)
    {
      for j := 0 to cols
        invariant |configs| == i * cols + j
        invariant counter.run == run0 + |configs|
        invariant |configs| > 0 ==> MergeSucceeds(template)
        invariant |configs| <= |rthSubRange| * cols
        invariant GridPrefix(configs, template, ref, rthSubRange, rthRange, run0)
      {
        MulMono(cols, i + 1, |rthSubRange|);
        var config := GridStep(template, ref, rthSubRange, rthRange, i, j, counter, run0, configs);
        if config.Err? {
          return Err(config.error);
        }
        configs := configs + [config.value];
      }
      assert |configs| == (i + 1) * cols;
      MulMono(cols, i + 1, |rthSubRange|);
    }
    r := Ok(configs);
  }

  /** `create_params(template)` with the default SequentialVIIRSConfig class:
      the reference vector is read from the template, then the grid of
      RthSub (outer) by Rth (inner) is merged into it. */
  method CreateParams(template: ConfigObject, counter: RunCounter)
    returns (r: Result<seq<ConfigObject>, Error>)
    modifies counter
    ensures VectorOf(template).Err? ==> r == Err(VectorOf(template).error) && counter.run == old(counter.run)
    ensures VectorOf(template).Ok? && !MergeSucceeds(template) ==>
              r == Err(GridConfig(template, VectorOf(template).value, RthSubRange, RthRange, old(counter.run), 0).error) &&
              counter.run == old(counter.run) + (if MissingFrom(template.attrs, 0).None? then 1 else 0)
    ensures VectorOf(template).Ok? && MergeSucceeds(template) ==> (
              r.Ok? && |r.value| == 15 && counter.run == old(counter.run) + 15 &&
              GridPrefix(r.value, template, VectorOf(template).value, RthSubRange, RthRange, old(counter.run)))
  {
    var templateVector := GetVector(template);
    if templateVector.Err? {
      return Err(templateVector.error);
    }
    r := GridConfigs(template, templateVector.value, RthSubRange, RthRange, counter);
  }

  /** The configuration at grid position n, which splits into row i and
      column j, carries the template's vector with RthSub = rthSubRange[i]
      and Rth = rthRange[j], and run id run0 + n. */
  lemma GridConfigContents(template: ConfigObject, ref: ConfigVector, rthSubRange: seq<real>,
                           rthRange: seq<real>, run0: int, n: nat, i: nat, j: nat)
    requires FloatPart(ref) && ref[10].Int? && ref[11].Int?
    requires MergeSucceeds(template)
    requires i < |rthSubRange| && j < |rthRange| && n < |rthSubRange| * |rthRange|
    requires n / |rthRange| == i && n % |rthRange| == j
    ensures GridConfig(template, ref, rthSubRange, rthRange, run0, n).Ok?
    ensures var c := GridConfig(template, ref, rthSubRange, rthRange, run0, n).value;
            VectorOf(c) == Ok(GridVector(ref, rthSubRange[i], rthRange[j])) &&
            run_id in c.attrs && c.attrs[run_id] == Int(run0 + n)
  {
    var vec := GridVector(ref, rthSubRange[i], rthRange[j]);
    assert FloatPart(vec) && vec[10].Int? && vec[11].Int?;
    SequentialMergeContents(template, vec, run0 + n, Merged(SequentialVIIRSConfig, vec, template, run0 + n));
    GridConfigAt(template, ref, rthSubRange, rthRange, run0, n, i, j);
  }

  lemma GridConfigAt(template: ConfigObject, ref: ConfigVector, rthSubRange: seq<real>,
                     rthRange: seq<real>, run0: int, n: nat, i: nat, j: nat)
    requires i < |rthSubRange| && j < |rthRange| && n < |rthSubRange| * |rthRange|
    requires n / |rthRange| == i && n % |rthRange| == j
    ensures GridConfig(template, ref, rthSubRange, rthRange, run0, n) ==
            Merged(SequentialVIIRSConfig, GridVector(ref, rthSubRange[i], rthRange[j]), template, run0 + n)
  {
  }
}
