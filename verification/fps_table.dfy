/** Frame-rate classification of the Kahawai FFmpeg plugin: a frame rate
    given as a rational number is turned into hundredths of a frame per
    second and looked up, first match wins, in a fixed ordered table of
    tolerance bands. */
module FpsTable {
  import opened CTypes

  /** The transport's frame-rate enumerators this table uses, and its
      `ST_FPS_MAX` sentinel, which here means "unsupported". */
  datatype StFps = P50 | P29_97 | P25 | P60 | P30 | P24 | P23_98 | P119_88 | Max

  /** One `KahawaiFpsDecs` entry: a target rate and the inclusive range of
      hundredths-of-fps values mapped to it. */
  datatype FpsBand = FpsBand(stFps: StFps, min: int, max: int)

  /** FFmpeg's `AVRational`: two C `int`s. */
  datatype Rational = Rational(num: int32, den: int32)

  /** `fps_table`, in source order. Each band is the nominal rate in
      hundredths plus or minus 100. The bands are NOT disjoint. */
  const FPS_TABLE: seq<FpsBand> := [
    FpsBand(P50, 5000 - 100, 5000 + 100),    FpsBand(P29_97, 2997 - 100, 2997 + 100),
    FpsBand(P25, 2500 - 100, 2500 + 100),    FpsBand(P60, 6000 - 100, 6000 + 100),
    FpsBand(P30, 3000 - 100, 3000 + 100),    FpsBand(P24, 2400 - 100, 2400 + 100),
    FpsBand(P23_98, 2398 - 100, 2398 + 100), FpsBand(P119_88, 11988 - 100, 11988 + 100)
  ]

  predicate Contains(b: FpsBand, fps: int)
  {
    b.min <= fps && fps <= b.max
  }

  /** The inputs on which `num * 100 / den` is defined behaviour in C:
      a non-zero denominator and a product that fits an `int`. */
  predicate WellDefined(r: Rational)
  {
    r.den != 0 && INT32_MIN <= r.num as int * 100 <= INT32_MAX
  }

  /** `unsigned int fps = framerate.num * 100 / framerate.den`. */
  function FpsHundredths(r: Rational): (fps: nat)
    requires WellDefined(r)
    ensures fps < UINT32_MODULUS
    ensures r.num >= 0 && r.den > 0 ==> fps == (r.num as int * 100) / r.den as int
    ensures r.num < 0 && r.den < 0 ==> fps == (-(r.num as int) * 100) / -(r.den as int)
    ensures r.num > 0 && r.den < 0 && r.num as int * 100 >= -(r.den as int) ==> fps >= 0x8000_0000
    ensures r.num < 0 && r.den > 0 && -(r.num as int * 100) >= r.den as int ==> fps >= 0x8000_0000
    ensures Abs(r.num as int * 100) < Abs(r.den as int) ==> fps == 0
  {
    var a, b := r.num as int * 100, r.den as int;
    TruncDivSigns(a, b);
    ToUint32(TruncDiv(a, b))
  }

  /** The index of the first band at or after `k` whose range holds `fps`,
      or `|table|` when none does. */
  function FirstMatchFrom(table: seq<FpsBand>, fps: int, k: nat): (i: nat)
    requires k <= |table|
    ensures k <= i <= |table|
    ensures forall j | k <= j < i :: !Contains(table[j], fps)
    ensures i < |table| ==> Contains(table[i], fps)
    decreases |table| - k
  {
    if k == |table| then k
    else if Contains(table[k], fps) then k
    else FirstMatchFrom(table, fps, k + 1)
  }

  /** The relational statement of first-match lookup: either `r` is the
      target of a band that holds `fps` and no earlier band holds it, or
      no band holds `fps` and `r` is the sentinel. */
  ghost predicate IsFirstMatch(table: seq<FpsBand>, fps: int, r: StFps)
  {
    || (exists i | 0 <= i < |table| ::
          && Contains(table[i], fps)
          && r == table[i].stFps
          && forall j | 0 <= j < i :: !Contains(table[j], fps))
    || ((forall i | 0 <= i < |table| :: !Contains(table[i], fps)) && r == Max)
  }

  /** First-match lookup over an arbitrary ordered table. */
  function Classify(table: seq<FpsBand>, fps: int): (r: StFps)
    ensures IsFirstMatch(table, fps, r)
  {
    var i := FirstMatchFrom(table, fps, 0);
    if i < |table| then table[i].stFps else Max
  }

  /** `get_fps_table`: the scan over `fps_table` as the source writes it. */
  method GetFpsTable(framerate: Rational) returns (r: StFps)
    requires WellDefined(framerate)
    ensures IsFirstMatch(FPS_TABLE, FpsHundredths(framerate), r)
    ensures r == Classify(FPS_TABLE, FpsHundredths(framerate))
  {
    var fps := FpsHundredths(framerate);
    var i := 0;
    while i < |FPS_TABLE|
      invariant 0 <= i <= |FPS_TABLE|
      invariant forall j | 0 <= j < i :: !Contains(FPS_TABLE[j], fps)
    {
      if fps >= FPS_TABLE[i].min && fps <= FPS_TABLE[i].max {
        FirstMatchIsUnique(FPS_TABLE, fps, FPS_TABLE[i].stFps, Classify(FPS_TABLE, fps));
        return FPS_TABLE[i].stFps;
      }
      i := i + 1;
    }
    FirstMatchIsUnique(FPS_TABLE, fps, Max, Classify(FPS_TABLE, fps));
    return Max;
  }

  /** The relational statement determines the result: a table and a rate
      admit exactly one first-match answer. */
  lemma FirstMatchIsUnique(table: seq<FpsBand>, fps: int, r1: StFps, r2: StFps)
    requires IsFirstMatch(table, fps, r1) && IsFirstMatch(table, fps, r2)
    ensures r1 == r2
  {
    if i1 :| (0 <= i1 < |table| && Contains(table[i1], fps) && r1 == table[i1].stFps
        && forall j | 0 <= j < i1 :: !Contains(table[j], fps)) {
      var i2 :| (0 <= i2 < |table| && Contains(table[i2], fps) && r2 == table[i2].stFps
        && forall j | 0 <= j < i2 :: !Contains(table[j], fps));
      assert i1 == i2;
    }
  }
}
