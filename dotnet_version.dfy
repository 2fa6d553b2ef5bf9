/** The start-up diagnostic that names the installed .NET Framework 4.5+
    version from the registry's release key (App.DetermineDotNetVersion). */
module DotNetVersion {

  /** The classification, in the order the source tests the thresholds:
      highest first. */
  function DetermineDotNetVersion(releaseKey: int): (r: string)
    ensures r in Labels
    ensures r == Labels[0] <==> releaseKey < Thresholds[0]
  {
    if releaseKey >= 381029 then "4.6 or later"
    else if releaseKey >= 379893 then "4.5.2 or later"
    else if releaseKey >= 378758 then "4.5.1 or later"
    else if releaseKey >= 378675 then "4.5.1 with Windows 8.1"
    else if releaseKey >= 378389 then "4.5 or later"
    else "No 4.5 or later version detected"
  }

  // ---------------------------------------------------------------------
  // An independent description: a table of bands
  // ---------------------------------------------------------------------

  /** The lowest release key of each band above the first, ascending. */
  const Thresholds: seq<int> := [378389, 378675, 378758, 379893, 381029]

  /** The text of each band, from the lowest to the highest. */
  const Labels: seq<string> := [
    "No 4.5 or later version detected",
    "4.5 or later",
    "4.5.1 with Windows 8.1",
    "4.5.1 or later",
    "4.5.2 or later",
    "4.6 or later"
  ]

  predicate Ascending(ts: seq<int>) {
    forall i, j :: 0 <= i < j < |ts| ==> ts[i] < ts[j]
  }

  /** How many of the thresholds the key reaches. */
  function CountReached(ts: seq<int>, releaseKey: int): (n: nat)
    ensures n <= |ts|
  {
    if ts == [] then 0
    else CountReached(ts[..|ts| - 1], releaseKey) + (if ts[|ts| - 1] <= releaseKey then 1 else 0)
  }

  /** The band a key falls in: 0 below every threshold, |Thresholds| at or
      above the last. */
  function Band(releaseKey: int): (b: nat)
    ensures b < |Labels|
  {
    CountReached(Thresholds, releaseKey)
  }

  /** On ascending thresholds, the count reached is n exactly when the key
      lies between the n-th threshold and the next one. */
  lemma {:induction false} CountReachedBetween(ts: seq<int>, releaseKey: int, n: nat)
    requires Ascending(ts) && n <= |ts|
    requires n == 0 || ts[n - 1] <= releaseKey
    requires n == |ts| || releaseKey < ts[n]
    ensures CountReached(ts, releaseKey) == n
  {
    if ts != [] {
      var init := ts[..|ts| - 1];
      if n == |ts| {
        CountReachedBetween(init, releaseKey, n - 1);
      } else {
        assert ts[|ts| - 1] > releaseKey by {
          if n < |ts| - 1 {
            assert ts[n] < ts[|ts| - 1];
          }
        }
        CountReachedBetween(init, releaseKey, n);
      }
    }
  }

  /** The if-chain agrees with the band table for every key. */
  lemma DetermineDotNetVersionMatchesTable(releaseKey: int)
    ensures DetermineDotNetVersion(releaseKey) == Labels[Band(releaseKey)]
  {
    var n := if releaseKey >= 381029 then 5
             else if releaseKey >= 379893 then 4
             else if releaseKey >= 378758 then 3
             else if releaseKey >= 378675 then 2
             else if releaseKey >= 378389 then 1
             else 0;
    CountReachedBetween(Thresholds, releaseKey, n);
  }

  /** Each band is named by its own text, so the text determines the band. */
  lemma LabelsDistinct()
    ensures forall i, j :: 0 <= i < j < |Labels| ==> Labels[i] != Labels[j]
  {
    forall i, j | 0 <= i < j < |Labels|
      ensures Labels[i] != Labels[j]
    {
      assert |Labels[i]| != |Labels[j]| || Labels[i][2] != Labels[j][2] || Labels[i][4] != Labels[j][4];
    }
  }

  /** On ascending thresholds, counting is monotone in the key. */
  lemma {:induction false} CountReachedMonotone(ts: seq<int>, k1: int, k2: int)
    requires k1 <= k2
    ensures CountReached(ts, k1) <= CountReached(ts, k2)
  {
    if ts != [] {
      CountReachedMonotone(ts[..|ts| - 1], k1, k2);
    }
  }

  /** A larger release key never falls in an earlier band. */
  lemma BandMonotone(k1: int, k2: int)
    requires k1 <= k2
    ensures Band(k1) <= Band(k2)
    ensures DetermineDotNetVersion(k1) == Labels[Band(k1)] && DetermineDotNetVersion(k2) == Labels[Band(k2)]
  {
    CountReachedMonotone(Thresholds, k1, k2);
    DetermineDotNetVersionMatchesTable(k1);
    DetermineDotNetVersionMatchesTable(k2);
  }

  /** Every band's text is given exactly for the keys of that band: at or
      above its own threshold and below the next one. So each of the six
      texts occurs, and the text tells which band the key is in. */
  lemma LabelIffBand(releaseKey: int, i: nat)
    requires i < |Labels|
    ensures DetermineDotNetVersion(releaseKey) == Labels[i]
        <==> (i == 0 || Thresholds[i - 1] <= releaseKey) && (i == |Thresholds| || releaseKey < Thresholds[i])
  {
    var n := if releaseKey >= 381029 then 5
             else if releaseKey >= 379893 then 4
             else if releaseKey >= 378758 then 3
             else if releaseKey >= 378675 then 2
             else if releaseKey >= 378389 then 1
             else 0;
    CountReachedBetween(Thresholds, releaseKey, n);
    DetermineDotNetVersionMatchesTable(releaseKey);
    LabelsDistinct();
    if (i == 0 || Thresholds[i - 1] <= releaseKey) && (i == |Thresholds| || releaseKey < Thresholds[i]) {
      CountReachedBetween(Thresholds, releaseKey, i);
    }
  }
}
