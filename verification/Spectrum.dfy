/** How a measured spectrum is kept: 256 bands, each so many half-decibels below
    the strongest (src/quality/mod.rs). */
module Spectrum {
  const BANDS: nat := 256
  const FLOOR: real := 0.000000000000000000000000000001

  /** Decibels to power and back, and the sums, quotients and differences taken
      on the way, each as the machine computes and rounds it. */
  datatype Scale = Scale(
    power: real -> real,
    db: real -> real,
    plus: (real, real) -> real,
    over: (real, nat) -> real,
    minus: (real, real) -> real,
    slack: real)

  /** What rounding is relied on for: nothing is lost on one term, a level of a
      stored spectrum survives being turned to power and back but for less than
      a sixteenth of a decibel, and a difference is as close. */
  ghost predicate Lawful(s: Scale) {
    && 0.0 <= s.slack < 0.0625
    && (forall p :: s.plus(0.0, p) == p && s.over(p, 1) == p)
    && (forall v | -300.0 <= v <= 0.0 :: s.power(v) >= FLOOR && v - s.slack <= s.db(s.power(v)) <= v + s.slack)
    && (forall a, b | 0.0 <= a - b <= 1000.0 :: a - b - s.slack <= s.minus(a, b) <= a - b + s.slack)
    && (forall a, b | a - b > 1000.0 :: s.minus(a, b) > 999.0)
  }

  /** Arithmetic over the reals, where both conversions are exact and increasing. */
  ghost predicate Exact(s: Scale) {
    && (forall a, b :: s.plus(a, b) == a + b)
    && (forall a, n: nat | n > 0 :: s.over(a, n) == a / n as real)
    && (forall v :: s.db(s.power(v)) == v && s.power(v) > 0.0)
    && (forall p | p > 0.0 :: s.power(s.db(p)) == p)
    && (forall v | v >= -300.0 :: s.power(v) >= FLOOR)
    && (forall v, w | v <= w :: s.power(v) <= s.power(w))
    && (forall x, y | 0.0 < x <= y :: s.db(x) <= s.db(y))
  }

  function Max(a: int, b: int): (m: int) {
    if a < b then b else a
  }

  function Min(a: int, b: int): (m: int) {
    if a < b then a else b
  }

  function Lo(band: nat, bins: nat): (lo: nat) {
    band * bins / BANDS
  }

  function Hi(band: nat, bins: nat): (hi: int) {
    Min(Max((band + 1) * bins / BANDS, Lo(band, bins) + 1), bins)
  }

  function Power(s: Scale, db: seq<real>): (sum: real) {
    if db == [] then 0.0 else s.plus(Power(s, db[..|db| - 1]), s.power(db[|db| - 1]))
  }

  function Level(s: Scale, db: seq<real>): (level: real)
    requires db != []
  {
    var mean := s.over(Power(s, db), |db|);
    s.db(if mean < FLOOR then FLOOR else mean)
  }

  /** The bins a band averages are inside the spectrum, and there are some. */
  lemma {:induction false} BandIsInside(band: nat, bins: nat)
    requires band < BANDS && bins > 0
    ensures 0 <= Lo(band, bins) < Hi(band, bins) <= bins
  {
    assert band * bins <= 255 * bins;
  }

  function Bands(s: Scale, db: seq<real>): (levels: seq<real>)
    requires db != []
    ensures |levels| == BANDS
  {
    seq(BANDS, band requires 0 <= band < BANDS =>
      BandIsInside(band, |db|);
      Level(s, db[Lo(band, |db|)..Hi(band, |db|)]))
  }

  function Loudest(levels: seq<real>): (loudest: real)
    requires levels != []
    ensures loudest in levels && forall l | l in levels :: l <= loudest
  {
    if |levels| == 1 then levels[0]
    else
      var n := |levels| - 1;
      var before := Loudest(levels[..n]);
      assert levels == levels[..n] + [levels[n]];
      if before < levels[n] then levels[n] else before
  }

  /** To the nearest whole number, halves away from zero. */
  function Round(x: real): (n: int) {
    if x >= 0.0 then (x + 0.5).Floor else -((0.5 - x).Floor)
  }

  /** A difference in half-decibels, in a byte. */
  function Step(under: real): (step: int)
    ensures 0 <= step <= 255
  {
    Max(0, Min(255, Round(under * 2.0)))
  }

  function StepsUnder(s: Scale, levels: seq<real>, loudest: real): (steps: seq<int>)
    ensures |steps| == |levels|
  {
    seq(|levels|, i requires 0 <= i < |levels| => Step(s.minus(loudest, levels[i])))
  }

  function Quantise(s: Scale, db: seq<real>): (stored: seq<int>)
    requires db != []
    ensures |stored| == BANDS
  {
    var levels := Bands(s, db);
    StepsUnder(s, levels, Loudest(levels))
  }

  function SpectrumDb(stored: seq<int>): (db: seq<real>) {
    seq(|stored|, i requires 0 <= i < |stored| => -(stored[i] as real) / 2.0)
  }

  // ---- the bands ----

  /** Each bin belongs to exactly one band. */
  predicate Partitions(bins: nat) {
    && Lo(0, bins) == 0 && Hi(BANDS - 1, bins) == bins
    && forall band: nat | band < BANDS - 1 :: Hi(band, bins) == Lo(band + 1, bins)
  }

  lemma BandStep(x: nat, bins: nat)
    requires bins >= BANDS && x + bins <= (BANDS - 1) * bins
    ensures x / BANDS + 1 <= (x + bins) / BANDS <= bins
  {
  }

  lemma Distributes(a: nat, b: nat, c: nat)
    ensures (a + b) * c == a * c + b * c && a * c >= 0 && b * c >= 0
  {
  }

  lemma {:induction false} NextBandStarts(band: nat, bins: nat)
    requires band < BANDS - 1 && bins >= BANDS
    ensures Hi(band, bins) == Lo(band + 1, bins)
  {
    Distributes(band, 1, bins);
    Distributes(band + 1, BANDS - 2 - band, bins);
    BandStep(band * bins, bins);
  }

  /** The bands share the bins out exactly when there are at least as many bins. */
  lemma {:induction false} PartitionIffEnoughBins(bins: nat)
    requires bins > 0
    ensures Partitions(bins) <==> bins >= BANDS
  {
    if bins >= BANDS {
      forall band: nat | band < BANDS - 1 ensures Hi(band, bins) == Lo(band + 1, bins) {
        NextBandStarts(band, bins);
      }
    } else {
      assert Lo(0, bins) == Lo(1, bins) == 0 && Hi(0, bins) == 1;
    }
  }

  lemma WidthOf(x: nat, bins: nat)
    ensures bins / BANDS <= (x + bins) / BANDS - x / BANDS <= bins / BANDS + 1
  {
  }

  /** And in parts that differ by at most one bin. */
  lemma {:induction false} BandsAreEven(band: nat, bins: nat)
    requires band < BANDS && bins >= BANDS
    ensures bins / BANDS <= Hi(band, bins) - Lo(band, bins) <= bins / BANDS + 1
  {
    Distributes(band, 1, bins);
    WidthOf(band * bins, bins);
    if band < BANDS - 1 {
      NextBandStarts(band, bins);
    } else {
      assert (band + 1) * bins == BANDS * bins;
    }
  }

  // ---- the levels ----

  /** The power of a stretch of bins is that of its parts. */
  lemma {:induction false} PowerAdds(s: Scale, a: seq<real>, b: seq<real>)
    requires forall x, y :: s.plus(x, y) == x + y
    ensures Power(s, a + b) == Power(s, a) + Power(s, b)
  {
    if b == [] {
      assert a + b == a;
    } else {
      assert (a + b)[..|a + b| - 1] == a + b[..|b| - 1];
      PowerAdds(s, a, b[..|b| - 1]);
    }
  }

  lemma QuotientTimes(n: real, x: real)
    requires n > 0.0
    ensures n * (x / n) == x
  {
  }

  /** A band's level is its mean power: as many times it as there are bins is
      the power of the bins. */
  lemma {:induction false} LevelIsMeanPower(s: Scale, db: seq<real>)
    requires Exact(s) && db != [] && forall i | 0 <= i < |db| :: db[i] >= -300.0
    ensures |db| as real * s.power(Level(s, db)) == Power(s, db)
  {
    var high := Highest(s, db);
    PowerIsBetween(s, db, FLOOR, high);
    MeanIsBetween(|db| as real, Power(s, db), FLOOR, high);
    QuotientTimes(|db| as real, Power(s, db));
  }

  function Highest(s: Scale, db: seq<real>): (high: real)
    ensures forall i | 0 <= i < |db| :: s.power(db[i]) <= high
  {
    if db == [] then 0.0
    else
      var before, last := Highest(s, db[..|db| - 1]), s.power(db[|db| - 1]);
      if before < last then last else before
  }

  /** The bins of one band. */
  function BinsOf(db: seq<real>, band: nat): (bins: seq<real>)
    requires db != [] && band < BANDS
    ensures |bins| == Hi(band, |db|) - Lo(band, |db|) > 0
  {
    BandIsInside(band, |db|);
    db[Lo(band, |db|)..Hi(band, |db|)]
  }

  /** What a band's level stands for: its power, once for every bin. */
  function Weight(s: Scale, db: seq<real>, band: nat): (power: real)
    requires db != [] && band < BANDS
  {
    |BinsOf(db, band)| as real * s.power(Bands(s, db)[band])
  }

  /** The first `k` of some numbers, added up. */
  function Sum(of: nat -> real, k: nat): (sum: real) {
    if k == 0 then 0.0 else Sum(of, k - 1) + of(k - 1)
  }

  function Weights(s: Scale, db: seq<real>): (of: nat -> real)
    requires db != []
  {
    (b: nat) => if b < BANDS then Weight(s, db, b) else 0.0
  }

  lemma {:induction false} WeightIsPower(s: Scale, db: seq<real>, band: nat)
    requires Exact(s) && db != [] && band < BANDS && forall i | 0 <= i < |db| :: db[i] >= -300.0
    ensures Weight(s, db, band) == Power(s, BinsOf(db, band))
  {
    var bins := BinsOf(db, band);
    LevelIsMeanPower(s, bins);
    assert Bands(s, db)[band] == Level(s, bins);
  }

  /** Where the bins of the first `k` bands end. */
  function Cut(bins: nat, k: nat): (end: nat)
    requires 0 < bins && k <= BANDS
    ensures end <= bins
  {
    if k == 0 then 0
    else
      BandIsInside(k - 1, bins);
      Hi(k - 1, bins)
  }

  lemma {:induction false} CutsMeet(bins: nat, band: nat)
    requires bins >= BANDS && band < BANDS
    ensures Cut(bins, band) == Lo(band, bins) && Cut(bins, band + 1) == Hi(band, bins)
  {
    if band > 0 {
      NextBandStarts(band - 1, bins);
    }
  }

  lemma {:induction false} PowerOfCut(s: Scale, db: seq<real>, lo: nat, hi: nat)
    requires forall x, y :: s.plus(x, y) == x + y
    requires lo <= hi <= |db|
    ensures Power(s, db[..hi]) == Power(s, db[..lo]) + Power(s, db[lo..hi])
  {
    PowerAdds(s, db[..lo], db[lo..hi]);
    assert db[..lo] + db[lo..hi] == db[..hi];
  }

  lemma {:induction false} CutAdds(s: Scale, db: seq<real>, band: nat)
    requires Exact(s) && |db| >= BANDS && band < BANDS && forall i | 0 <= i < |db| :: db[i] >= -300.0
    ensures Power(s, db[..Cut(|db|, band + 1)]) == Power(s, db[..Cut(|db|, band)]) + Weight(s, db, band)
  {
    WeightIsPower(s, db, band);
    CutsMeet(|db|, band);
    BandIsInside(band, |db|);
    PowerOfCut(s, db, Lo(band, |db|), Hi(band, |db|));
  }

  lemma {:induction false} SpreadUpTo(s: Scale, db: seq<real>, k: nat)
    requires Exact(s) && |db| >= BANDS && k <= BANDS && forall i | 0 <= i < |db| :: db[i] >= -300.0
    ensures Sum(Weights(s, db), k) == Power(s, db[..Cut(|db|, k)])
  {
    if k == 0 {
      assert db[..0] == [];
    } else {
      SpreadUpTo(s, db, k - 1);
      CutAdds(s, db, k - 1);
      assert Weights(s, db)(k - 1) == Weight(s, db, k - 1);
    }
  }

  /** Over the reals all the bands together keep the power of the spectrum, none
      of it lost and none counted twice: each level as many times as it has bins. */
  lemma {:induction false} BandsKeepThePower(s: Scale, db: seq<real>, bands: nat)
    requires Exact(s) && |db| >= bands == BANDS && forall i | 0 <= i < |db| :: db[i] >= -300.0
    ensures Sum(Weights(s, db), bands) == Power(s, db)
  {
    SpreadUpTo(s, db, bands);
    LastCut(|db|, bands);
    UpToAll(s, db, Cut(|db|, bands));
  }

  lemma UpToAll(s: Scale, db: seq<real>, end: nat)
    requires end == |db|
    ensures Power(s, db[..end]) == Power(s, db)
  {
    assert db[..end] == db;
  }

  lemma LastCut(bins: nat, k: nat)
    requires bins >= BANDS && k == BANDS
    ensures Cut(bins, k) == bins
  {
    PartitionIffEnoughBins(bins);
  }

  lemma OneMore(n: nat, x: real)
    ensures (n + 1) as real * x == n as real * x + x
  {
  }

  lemma {:induction false} PowerIsBetween(s: Scale, db: seq<real>, low: real, high: real)
    requires forall a, b :: s.plus(a, b) == a + b
    requires forall i | 0 <= i < |db| :: low <= s.power(db[i]) <= high
    ensures |db| as real * low <= Power(s, db) <= |db| as real * high
  {
    if db != [] {
      PowerIsBetween(s, db[..|db| - 1], low, high);
      OneMore(|db| - 1, low);
      OneMore(|db| - 1, high);
    }
  }

  lemma LessTimes(x: real, y: real, n: real)
    requires x < y && n > 0.0
    ensures x * n < y * n
  {
  }

  lemma MeanIsBetween(n: real, sum: real, low: real, high: real)
    requires n > 0.0 && n * low <= sum <= n * high
    ensures low <= sum / n <= high
  {
    assert sum / n * n == sum;
    if sum / n < low {
      LessTimes(sum / n, low, n);
    }
    if sum / n > high {
      LessTimes(high, sum / n, n);
    }
  }

  /** A band is no quieter than its quietest bin and no louder than its loudest. */
  lemma {:induction false} LevelIsBetween(s: Scale, db: seq<real>, low: real, high: real)
    requires Exact(s) && db != []
    requires -300.0 <= low && forall i | 0 <= i < |db| :: low <= db[i] <= high
    ensures low <= Level(s, db) <= high
  {
    PowerIsBetween(s, db, s.power(low), s.power(high));
    MeanIsBetween(|db| as real, Power(s, db), s.power(low), s.power(high));
    assert s.db(s.power(low)) == low && s.db(s.power(high)) == high;
  }

  lemma RoundIsNear(x: real)
    ensures x - 0.5 <= Round(x) as real <= x + 0.5
  {
  }

  /** And where two whole numbers are as near, the one further from zero. */
  lemma HalvesGoAway(n: nat)
    ensures Round(n as real + 0.5) == n + 1 && Round(-(n as real) - 0.5) == -(n as int) - 1
  {
  }

  /** A step reads back within a quarter of a decibel exactly down to 127.75 dB. */
  lemma {:induction false} StepReadsBack(under: real)
    requires under > -0.25
    ensures -0.25 <= under - Step(under) as real / 2.0 <= 0.25 <==> under <= 127.75
    ensures under > 127.75 ==> under - Step(under) as real / 2.0 > 0.25
  {
    RoundIsNear(under * 2.0);
  }

  /** What is stored reads back within a quarter of a decibel, but for the slack
      of one difference, exactly down to 127.75 dB under the loudest band, give
      or take as much: that covers the 127.5 dB it is meant for. */
  lemma {:induction false} StoredReadsBack(s: Scale, db: seq<real>, band: nat)
    requires Lawful(s) && db != [] && band < BANDS
    ensures var levels := Bands(s, db);
            var under := Loudest(levels) - levels[band];
            var error := SpectrumDb(Quantise(s, db))[band] + under;
            && (under <= 127.75 - s.slack ==> -0.25 - s.slack <= error <= 0.25 + s.slack)
            && (under > 127.75 + s.slack ==> error > 0.25 - s.slack)
            && (s.slack == 0.0 ==> (-0.25 <= error <= 0.25 <==> under <= 127.75))
  {
    var levels := Bands(s, db);
    assert levels[band] in levels;
    DifferenceReadsBack(s, Loudest(levels), levels[band]);
  }

  lemma {:induction false} DifferenceReadsBack(s: Scale, loudest: real, level: real)
    requires Lawful(s) && level <= loudest
    ensures var under := loudest - level;
            var error := -(Step(s.minus(loudest, level)) as real) / 2.0 + under;
            && (under <= 127.75 - s.slack ==> -0.25 - s.slack <= error <= 0.25 + s.slack)
            && (under > 127.75 + s.slack ==> error > 0.25 - s.slack)
            && (s.slack == 0.0 ==> (-0.25 <= error <= 0.25 <==> under <= 127.75))
  {
    StepReadsBack(s.minus(loudest, level));
  }

  predicate Steps(stored: seq<int>) {
    |stored| == BANDS && forall step | step in stored :: 0 <= step <= 255
  }

  lemma SmallIsZero(under: real)
    requires -0.25 < under < 0.25
    ensures Step(under) == 0
  {
  }

  lemma {:induction false} NothingUnderItself(s: Scale, level: real)
    requires Lawful(s)
    ensures Step(s.minus(level, level)) == 0
  {
    assert 0.0 <= level - level <= 1000.0;
    SmallIsZero(s.minus(level, level));
  }

  lemma {:induction false} StepsFitBytes(s: Scale, levels: seq<real>, loudest: real)
    ensures forall i | 0 <= i < |levels| :: 0 <= StepsUnder(s, levels, loudest)[i] <= 255
  {
    forall i | 0 <= i < |levels| ensures 0 <= StepsUnder(s, levels, loudest)[i] <= 255 {
      assert StepsUnder(s, levels, loudest)[i] == Step(s.minus(loudest, levels[i]));
    }
  }

  /** Whatever was measured, the loudest band is stored as zero. */
  lemma {:induction false} LoudestIsZero(s: Scale, db: seq<real>)
    requires Lawful(s) && db != []
    ensures Steps(Quantise(s, db)) && 0 in Quantise(s, db)
  {
    var levels := Bands(s, db);
    StepsFitBytes(s, levels, Loudest(levels));
    var band :| 0 <= band < BANDS && levels[band] == Loudest(levels);
    NothingUnderItself(s, levels[band]);
    assert Quantise(s, db)[band] == 0;
  }

  /** A spectrum of 256 bins has each bin for its own band. */
  lemma {:induction false} OwnBand(s: Scale, db: seq<real>, band: nat)
    requires Lawful(s) && |db| == BANDS && band < BANDS && -300.0 <= db[band] <= 0.0
    ensures db[band] - s.slack <= Bands(s, db)[band] <= db[band] + s.slack
  {
    assert band * BANDS / BANDS == band && (band + 1) * BANDS / BANDS == band + 1;
    var bin := db[Lo(band, BANDS)..Hi(band, BANDS)];
    assert bin == [db[band]] && bin[..0] == [];
    assert Power(s, bin) == s.power(db[band]);
  }

  function Least(stored: seq<int>): (least: int)
    requires stored != []
    ensures least in stored && forall step | step in stored :: least <= step
  {
    if |stored| == 1 then stored[0]
    else
      var n := |stored| - 1;
      var before := Least(stored[..n]);
      assert stored == stored[..n] + [stored[n]];
      Min(before, stored[n])
  }

  /** Levels that are close have loudest ones that are. */
  lemma {:induction false} LoudestIsNear(a: seq<real>, b: seq<real>, slack: real)
    requires |a| == |b| > 0
    requires forall i | 0 <= i < |a| :: b[i] - slack <= a[i] <= b[i] + slack
    ensures Loudest(b) - slack <= Loudest(a) <= Loudest(b) + slack
  {
    var i :| 0 <= i < |a| && a[i] == Loudest(a);
    var j :| 0 <= j < |b| && b[j] == Loudest(b);
    assert b[i] in b && a[j] in a;
  }

  lemma {:induction false} LoudestReadBack(stored: seq<int>)
    requires Steps(stored)
    ensures Loudest(SpectrumDb(stored)) == -(Least(stored) as real) / 2.0
  {
    var db := SpectrumDb(stored);
    var quietest :| 0 <= quietest < BANDS && stored[quietest] == Least(stored);
    assert db[quietest] in db;
    var at :| 0 <= at < BANDS && db[at] == Loudest(db);
    assert stored[at] in stored;
  }

  /** A difference less than a quarter off a whole number of half-decibels is that step. */
  lemma NearIsThatStep(under: real, step: int)
    requires 0 <= step <= 255 && step as real - 0.5 < under * 2.0 < step as real + 0.5
    ensures Step(under) == step
  {
  }

  /** Quantising what was read back moves every step up by the least of them. */
  lemma {:induction false} RequantisedAt(s: Scale, stored: seq<int>, band: nat)
    requires Lawful(s) && Steps(stored) && band < BANDS
    ensures Quantise(s, SpectrumDb(stored))[band] == stored[band] - Least(stored)
  {
    var db := SpectrumDb(stored);
    var levels := Bands(s, db);
    forall b: nat | b < BANDS ensures db[b] - s.slack <= levels[b] <= db[b] + s.slack {
      assert stored[b] in stored;
      OwnBand(s, db, b);
    }
    LoudestIsNear(levels, db, s.slack);
    LoudestReadBack(stored);
    assert stored[band] in stored && levels[band] in levels;
    NearIsThatStep(s.minus(Loudest(levels), levels[band]), stored[band] - Least(stored));
  }

  lemma {:induction false} ShiftedIsSame(stored: seq<int>, shifted: seq<int>)
    requires Steps(stored) && |shifted| == BANDS
    requires forall band: nat | band < BANDS :: shifted[band] == stored[band] - Least(stored)
    ensures shifted == stored <==> 0 in stored
  {
    assert shifted[0] == stored[0] - Least(stored);
  }

  /** Reading a stored spectrum back and storing it again changes nothing
      exactly when its loudest band is at zero, as every measured one is. */
  lemma {:induction false} RequantisingIsIdentity(s: Scale, stored: seq<int>)
    requires Lawful(s) && Steps(stored)
    ensures Quantise(s, SpectrumDb(stored)) == stored <==> 0 in stored
  {
    var shifted := Quantise(s, SpectrumDb(stored));
    forall band: nat | band < BANDS ensures shifted[band] == stored[band] - Least(stored) {
      RequantisedAt(s, stored, band);
    }
    ShiftedIsSame(stored, shifted);
  }

  lemma {:induction false} StoredIsSettled(s: Scale, db: seq<real>)
    requires Lawful(s) && db != []
    ensures Quantise(s, SpectrumDb(Quantise(s, db))) == Quantise(s, db)
  {
    LoudestIsZero(s, db);
    RequantisingIsIdentity(s, Quantise(s, db));
  }

  // ---- the picture's deadline, in nanoseconds ----

  const SECOND: nat := 1_000_000_000

  /** How long a drawing may take under a request's own timeout. */
  function SpectrogramDeadline(request: nat): (deadline: int) {
    var margin := Min(5 * SECOND, request / 2);
    Min(request - margin, 20 * SECOND)
  }

  /** Under any timeout an operator can set, whole seconds and at least one, the
      drawing gives up first, and leaves the request five seconds or half of it. */
  lemma DrawingGivesUpFirst(seconds: nat)
    requires seconds >= 1
    ensures var request := seconds * SECOND;
            && 0 < SpectrogramDeadline(request) < request
            && SpectrogramDeadline(request) <= 20 * SECOND
            && request - SpectrogramDeadline(request) >= Min(5 * SECOND, request / 2)
  {
  }

  /** The arithmetic's own boundary: half of one nanosecond rounds to nothing. */
  lemma GivesUpFirstIff(request: nat)
    ensures SpectrogramDeadline(request) < request <==> request >= 2
    ensures 0 <= SpectrogramDeadline(request) <= 20 * SECOND
    ensures request >= 25 * SECOND ==> SpectrogramDeadline(request) == 20 * SECOND
  {
  }
}
