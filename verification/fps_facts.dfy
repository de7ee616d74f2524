/** What first-match lookup means for the plugin's own table: the band
    each supported rate effectively owns once earlier bands have taken
    their overlap, the rates nothing matches, and how common nominal frame
    rates are classified. */
module FpsFacts {
  import opened CTypes
  import opened FpsTable

  /** An independent reference for `fps_table`: the disjoint ranges each
      target is actually returned for, listed by increasing rate. */
  function EffectiveRate(fps: int): (st: StFps)
  {
    if 2298 <= fps <= 2299 then P23_98
    else if 2300 <= fps <= 2399 then P24
    else if 2400 <= fps <= 2600 then P25
    else if 2897 <= fps <= 3097 then P29_97
    else if 3098 <= fps <= 3100 then P30
    else if 4900 <= fps <= 5100 then P50
    else if 5900 <= fps <= 6100 then P60
    else if 11888 <= fps <= 12088 then P119_88
    else Max
  }

  /** The union of all band ranges in `fps_table`. */
  predicate InSomeBand(fps: int)
  {
    || 2298 <= fps <= 2600
    || 2897 <= fps <= 3100
    || 4900 <= fps <= 5100
    || 5900 <= fps <= 6100
    || 11888 <= fps <= 12088
  }

  /** First-match lookup over `fps_table` returns exactly the effective
      range's target for every rate. */
  lemma ClassifyIsEffectiveRate(fps: int)
    ensures Classify(FPS_TABLE, fps) == EffectiveRate(fps)
  {
    var t := FPS_TABLE;
    var i := FirstMatchFrom(t, fps, 0);
    if i < 8 {
      assert t[i].stFps == Classify(t, fps);
    }
  }

  /** Unsupported exactly outside the union of the bands, both directions. */
  lemma UnsupportedIffOutsideBands(fps: int)
    ensures Classify(FPS_TABLE, fps) == Max <==> !InSomeBand(fps)
  {
    ClassifyIsEffectiveRate(fps);
  }

  /** 30p is only ever reported for 30.98 to 31.00 fps: the 29.97p band,
      earlier in the table, takes the rest of the 30p band. */
  lemma P30OnlyAbove3097(fps: int)
    ensures Classify(FPS_TABLE, fps) == P30 <==> 3098 <= fps <= 3100
  {
    ClassifyIsEffectiveRate(fps);
  }

  /** 23.98p is only ever reported for 22.98 and 22.99 fps: the 25p and 24p
      bands, earlier in the table, take the rest of the 23.98p band. */
  lemma P23_98OnlyBelow2300(fps: int)
    ensures Classify(FPS_TABLE, fps) == P23_98 <==> 2298 <= fps <= 2299
  {
    ClassifyIsEffectiveRate(fps);
  }

  /** Both ends of the 29.97p band classify as 29.97p. */
  lemma P29_97BoundsInclusive()
    ensures Classify(FPS_TABLE, 2997 - 100) == P29_97
    ensures Classify(FPS_TABLE, 2997 + 100) == P29_97
    ensures Classify(FPS_TABLE, 2997 - 101) == Max
  {
    ClassifyIsEffectiveRate(2896);
    ClassifyIsEffectiveRate(2897);
    ClassifyIsEffectiveRate(3097);
  }

  /** Exactly 30.00 fps is reported as 29.97p and exactly 24.00 fps as 25p. */
  lemma OverlapsResolvedByOrder()
    ensures Classify(FPS_TABLE, 3000) == P29_97
    ensures Classify(FPS_TABLE, 2400) == P25
  {
    ClassifyIsEffectiveRate(3000);
    ClassifyIsEffectiveRate(2400);
  }

  /** How the usual nominal frame rates, as FFmpeg presents them, come out
      of `get_fps_table`. */
  lemma NominalRates()
    ensures Classify(FPS_TABLE, FpsHundredths(Rational(24000, 1001))) == P24
    ensures Classify(FPS_TABLE, FpsHundredths(Rational(24, 1))) == P25
    ensures Classify(FPS_TABLE, FpsHundredths(Rational(25, 1))) == P25
    ensures Classify(FPS_TABLE, FpsHundredths(Rational(30000, 1001))) == P29_97
    ensures Classify(FPS_TABLE, FpsHundredths(Rational(30, 1))) == P29_97
    ensures Classify(FPS_TABLE, FpsHundredths(Rational(50, 1))) == P50
    ensures Classify(FPS_TABLE, FpsHundredths(Rational(60000, 1001))) == P60
    ensures Classify(FPS_TABLE, FpsHundredths(Rational(60, 1))) == P60
    ensures Classify(FPS_TABLE, FpsHundredths(Rational(120000, 1001))) == P119_88
  {
    assert FpsHundredths(Rational(24000, 1001)) == 2397;
    assert FpsHundredths(Rational(30000, 1001)) == 2997;
    assert FpsHundredths(Rational(60000, 1001)) == 5994;
    assert FpsHundredths(Rational(120000, 1001)) == 11988;
    ClassifyIsEffectiveRate(2397);
    ClassifyIsEffectiveRate(2400);
    ClassifyIsEffectiveRate(2500);
    ClassifyIsEffectiveRate(2997);
    ClassifyIsEffectiveRate(3000);
    ClassifyIsEffectiveRate(5000);
    ClassifyIsEffectiveRate(5994);
    ClassifyIsEffectiveRate(6000);
    ClassifyIsEffectiveRate(11988);
  }

  /** A rate whose numerator and denominator have opposite signs, and whose
      magnitude is at least 0.01 fps, wraps to an `unsigned int` above every
      band and is unsupported. */
  lemma NegativeRatesUnsupported(r: Rational)
    requires WellDefined(r)
    requires (r.num < 0) != (r.den < 0)
    requires Abs(r.num as int * 100) >= Abs(r.den as int)
    ensures Classify(FPS_TABLE, FpsHundredths(r)) == Max
  {
    var fps := FpsHundredths(r);
    assert fps >= 0x8000_0000;
    UnsupportedIffOutsideBands(fps);
  }

  /** Bands that share a rate: the table's bands are not pairwise
      disjoint, so the order of the scan decides the answer. */
  lemma TableOverlaps()
    ensures !PairwiseDisjoint(FPS_TABLE)
    ensures Contains(FPS_TABLE[1], 3000) && Contains(FPS_TABLE[4], 3000)
    ensures Contains(FPS_TABLE[2], 2400) && Contains(FPS_TABLE[5], 2400)
  {
    assert Contains(FPS_TABLE[1], 3000) && Contains(FPS_TABLE[4], 3000);
  }

  /** No rate lies in two different bands. */
  ghost predicate PairwiseDisjoint(table: seq<FpsBand>)
  {
    forall i, j, fps | 0 <= i < j < |table| :: !(Contains(table[i], fps) && Contains(table[j], fps))
  }

  /** On a table whose bands are pairwise disjoint the order of the scan
      would not matter: any band holding the rate gives the answer. */
  lemma DisjointTableOrderFree(table: seq<FpsBand>, i: nat, fps: int)
    requires PairwiseDisjoint(table)
    requires i < |table| && Contains(table[i], fps)
    ensures Classify(table, fps) == table[i].stFps
  {
    var k := FirstMatchFrom(table, fps, 0);
    assert k <= i;
  }

  /** On any table, a band holding the rate bounds the answer: the scan
      stops at that band or earlier, so the answer is never the sentinel
      unless some band's own target is. */
  lemma EarlierBandWins(table: seq<FpsBand>, i: nat, fps: int)
    requires i < |table| && Contains(table[i], fps)
    ensures exists k | 0 <= k <= i :: Classify(table, fps) == table[k].stFps && Contains(table[k], fps)
  {
    var k := FirstMatchFrom(table, fps, 0);
    assert k <= i;
    assert Classify(table, fps) == table[k].stFps;
  }
}
