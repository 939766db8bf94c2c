/** Model of `array2list` in scripts/VIIRS_threshold_reflCor_Bulk.py: turning
    the (latitude, longitude) pairs of the 750 m active fires into the list
    that is written out. */
module LatLonLists {
  /** Where `np.nonzero` finds nonzero entries in the n-by-2 array built from
      the pairs, from row `k` on: its first index array, which names a row
      once for every nonzero coordinate in it. */
  function NonzeroRows(a: seq<(real, real)>, k: nat): (rows: seq<nat>)
    decreases |a| - k
    ensures forall m :: 0 <= m < |rows| ==> k <= rows[m] < |a|
  {
    if k >= |a| then []
    else (if a[k].0 != 0.0 then [k] else []) + (if a[k].1 != 0.0 then [k] else []) + NonzeroRows(a, k + 1)
  }

  /** `s[0::2]`. */
  function EveryOther(s: seq<nat>): (r: seq<nat>)
    decreases |s|
    ensures |r| == (|s| + 1) / 2
    ensures forall m :: 0 <= m < |r| ==> r[m] == s[2 * m]
  {
    if |s| == 0 then [] else if |s| == 1 then [s[0]] else [s[0]] + EveryOther(s[2..])
  }

  /** `array2list` as written: the rows named by every second entry of the
      first `np.nonzero` index array. */
  function Array2ListAsWritten(a: seq<(real, real)>): (out: seq<(real, real)>)
    ensures forall p :: p in out ==> p in a
  {
    var rows := EveryOther(NonzeroRows(a, 0));
    seq(|rows|, m requires 0 <= m < |rows| => a[rows[m]])
  }

  /** Both coordinates are nonzero. */
  predicate BothNonzero(p: (real, real)) {
    p.0 != 0.0 && p.1 != 0.0
  }

  /** `k, k+1, ..., n-1`. */
  function Range(k: nat, n: nat): (r: seq<nat>)
    decreases n - k
    ensures |r| == if k <= n then n - k else 0
    ensures forall m :: 0 <= m < |r| ==> r[m] == k + m
  {
    if k >= n then [] else [k] + Range(k + 1, n)
  }

  lemma {:induction false} EveryOtherPairs(a: seq<(real, real)>, k: nat)
    requires forall m :: k <= m < |a| ==> BothNonzero(a[m])
    ensures EveryOther(NonzeroRows(a, k)) == Range(k, |a|)
    decreases |a| - k
  {
    if k < |a| {
      EveryOtherPairs(a, k + 1);
      var s := NonzeroRows(a, k);
      assert s == [k, k] + NonzeroRows(a, k + 1);
      assert s[2..] == NonzeroRows(a, k + 1);
    }
  }

  /** When every pair has two nonzero coordinates, as they do away from the
      equator and the prime meridian, `array2list` returns every pair. */
  lemma Array2ListAsWrittenKeepsPairs(a: seq<(real, real)>)
    requires forall m :: 0 <= m < |a| ==> BothNonzero(a[m])
    ensures Array2ListAsWritten(a) == a
  {
    EveryOtherPairs(a, 0);
  }

  /** With a zero coordinate the row indices no longer come in pairs: for
      [(1, 0), (2, 0), (3, 4)] the first index array is [0, 1, 2, 2], every
      second entry names rows 0 and 2, and the pair (1, 0) is written out
      while (2, 0) is not. The older filter keeps (3, 4) alone. */
  lemma Array2ListAsWrittenMisaligned()
    ensures Array2ListAsWritten([(1.0, 0.0), (2.0, 0.0), (3.0, 4.0)]) == [(1.0, 0.0), (3.0, 4.0)]
    ensures KeepNonzero([(1.0, 0.0), (2.0, 0.0), (3.0, 4.0)]) == [(3.0, 4.0)]
  {
    var a := [(1.0, 0.0), (2.0, 0.0), (3.0, 4.0)];
    assert NonzeroRows(a, 2) == [2, 2];
    assert NonzeroRows(a, 1) == [1, 2, 2];
    assert NonzeroRows(a, 0) == [0, 1, 2, 2];
    assert EveryOther([2, 2]) == [2];
    assert EveryOther(NonzeroRows(a, 0)) == [0, 2];
  }

  /** The pairs with two nonzero coordinates, in order. */
  function KeepNonzero(a: seq<(real, real)>): (out: seq<(real, real)>)
    ensures |out| <= |a|
  {
    if a == [] then []
    else KeepNonzero(a[..|a| - 1]) + (if BothNonzero(a[|a| - 1]) then [a[|a| - 1]] else [])
  }

  /** A pair is kept exactly when it occurs with two nonzero coordinates. */
  lemma {:induction false} KeepNonzeroMembers(a: seq<(real, real)>, p: (real, real))
    ensures p in KeepNonzero(a) <==> p in a && BothNonzero(p)
  {
    if a != [] {
      var front := a[..|a| - 1];
      KeepNonzeroMembers(front, p);
      assert a == front + [a[|a| - 1]];
    }
  }

  /** Where no coordinate is zero the filter keeps every pair, as
      `Array2ListAsWritten` does. */
  lemma {:induction false} KeepNonzeroAll(a: seq<(real, real)>)
    requires forall m :: 0 <= m < |a| ==> BothNonzero(a[m])
    ensures KeepNonzero(a) == a
  {
    if a != [] {
      var front := a[..|a| - 1];
      KeepNonzeroAll(front);
      assert a == front + [a[|a| - 1]];
    }
  }

  /** The pair filter of the older `array2list`: every pair whose two
      coordinates are nonzero, in order. */
  method Array2List(pairs: seq<(real, real)>) returns (outlist: seq<(real, real)>)
    ensures outlist == KeepNonzero(pairs)
  {
    outlist := [];
    for i := 0 to |pairs|
      invariant outlist == KeepNonzero(pairs[..i])
    {
      assert pairs[..i + 1][..i] == pairs[..i];
      if pairs[i].0 != 0.0 && pairs[i].1 != 0.0 {
        outlist := outlist + [pairs[i]];
      }
    }
    assert pairs[..|pairs|] == pairs;
  }
}
