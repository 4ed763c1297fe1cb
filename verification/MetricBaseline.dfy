/** Learned baselines: an exponentially weighted mean and variance per metric, updated in place, with
    anti-poisoning, promotion and a deviation score. Floating point is read as real arithmetic. */
module MetricBaseline {
  import opened Reals

  datatype Config = Config(
    alpha: real, alphaPromoted: real, minCount: nat, maxProfiles: int, deviationThreshold: real, sigmaFloor: real)

  /** A profile as a value. Time 0 is the zero time. */
  datatype Stats = Stats(
    ewma: real, variance: real, peak: real, count: nat, learned: nat, suspicious: nat,
    firstSeen: int, lastSeen: int, promoted: bool, confidence: real)

  /** One metric value; `age` is the profile's age in seconds when the confidence is recomputed. */
  datatype Observation = Observation(value: real, suspicious: bool, now: int, age: real)

  function Fresh(now: int): Stats {
    Stats(0.0, 0.0, 0.0, 0, 0, 0, now, 0, false, 0.0)
  }

  /** The engine's defaults for settings that are not positive. */
  function Normalize(cfg: Config): (c: Config)
    ensures c.alpha > 0.0 && c.alphaPromoted > 0.0 && c.minCount > 0 && c.maxProfiles > 0
    ensures c.deviationThreshold > 0.0 && c.sigmaFloor > 0.0
    ensures (cfg.alpha > 0.0 && cfg.alphaPromoted > 0.0 && cfg.minCount > 0 && cfg.maxProfiles > 0
             && cfg.deviationThreshold > 0.0 && cfg.sigmaFloor > 0.0) ==> c == cfg
  {
    Config(
      if cfg.alpha <= 0.0 then 0.10 else cfg.alpha,
      if cfg.alphaPromoted <= 0.0 then 0.02 else cfg.alphaPromoted,
      if cfg.minCount == 0 then 30 else cfg.minCount,
      if cfg.maxProfiles <= 0 then 10_000 else cfg.maxProfiles,
      if cfg.deviationThreshold <= 0.0 then 4.0 else cfg.deviationThreshold,
      if cfg.sigmaFloor <= 0.0 then 0.01 else cfg.sigmaFloor)
  }

  /** Learning rates that average: the engine only makes them positive. */
  predicate Rates(cfg: Config) {
    0.0 < cfg.alpha <= 1.0 && 0.0 < cfg.alphaPromoted <= 1.0
  }

  // ---------------------------------------------------------------- one update, on values

  function ConfidenceOf(learned: nat, age: real): (c: real)
    ensures c <= 1.0
  {
    0.6 * Min(learned as real / 100.0, 1.0) + 0.4 * Min(age / 86400.0, 1.0)
  }

  function Promote(s: Stats, cfg: Config): Stats {
    if !s.promoted && s.learned >= cfg.minCount then s.(promoted := true, peak := s.ewma) else s
  }

  function Average(ewma: real, value: real, a: real): real {
    ewma + a * (value - ewma)
  }

  function Spread(variance: real, delta: real, a: real): real {
    (1.0 - a) * variance + a * delta * delta
  }

  function Learn(s: Stats, o: Observation, cfg: Config): Stats {
    if s.learned == 0 then
      Promote(s.(ewma := o.value, variance := 0.0, learned := 1,
                 firstSeen := if s.firstSeen == 0 then o.now else s.firstSeen), cfg)
    else
      var a := if s.promoted then cfg.alphaPromoted else cfg.alpha;
      var t := s.(ewma := Average(s.ewma, o.value, a), variance := Spread(s.variance, o.value - s.ewma, a),
                  learned := s.learned + 1,
                  peak := if s.promoted && o.value > s.peak then o.value else s.peak);
      Promote(t, cfg).(confidence := ConfidenceOf(t.learned, o.age))
  }

  function Update(s: Stats, o: Observation, cfg: Config): Stats {
    var t := s.(count := s.count + 1, lastSeen := o.now);
    if o.suspicious then t.(suspicious := s.suspicious + 1) else Learn(t, o, cfg)
  }

  class Profile {
    var ewma: real
    var variance: real
    var peak: real
    var count: nat
    var learned: nat
    var suspicious: nat
    var firstSeen: int
    var lastSeen: int
    var promoted: bool
    var confidence: real

    ghost function Value(): Stats
      reads this
    {
      Stats(ewma, variance, peak, count, learned, suspicious, firstSeen, lastSeen, promoted, confidence)
    }

    constructor (now: int)
      ensures Value() == Fresh(now)
    {
      ewma, variance, peak, confidence, promoted := 0.0, 0.0, 0.0, 0.0, false;
      count, learned, suspicious, firstSeen, lastSeen := 0, 0, 0, now, 0;
    }

    method CheckPromotion(cfg: Config)
      modifies this
      ensures Value() == Promote(old(Value()), cfg)
    {
      if promoted { return; }
      if learned >= cfg.minCount { promoted, peak := true, ewma; }
    }

    method RecomputeConfidence(age: real)
      modifies this`confidence
      ensures confidence == ConfidenceOf(learned, age)
    {
      var countScore := Min(learned as real / 100.0, 1.0);
      var ageScore := Min(age / 86400.0, 1.0);
      confidence := 0.6 * countScore + 0.4 * ageScore;
    }

    method Apply(o: Observation, cfg: Config)
      modifies this
      ensures Value() == Update(old(Value()), o, cfg)
    {
      count, lastSeen := count + 1, o.now;
      if o.suspicious {
        suspicious := suspicious + 1;
        return;
      }
      var a := if promoted then cfg.alphaPromoted else cfg.alpha;
      if learned == 0 {
        ewma, variance, learned := o.value, 0.0, 1;
        if firstSeen == 0 { firstSeen := o.now; }
        CheckPromotion(cfg);
        return;
      }
      var delta := o.value - ewma;
      ewma := ewma + a * delta;
      variance := (1.0 - a) * variance + a * delta * delta;
      learned := learned + 1;
      if promoted && o.value > peak { peak := o.value; }
      CheckPromotion(cfg);
      RecomputeConfidence(o.age);
    }
  }

  // ---------------------------------------------------------------- runs of one profile

  function Run(s: Stats, os: seq<Observation>, cfg: Config): Stats {
    if os == [] then s else Update(Run(s, os[..|os| - 1], cfg), os[|os| - 1], cfg)
  }

  function Trusted(os: seq<Observation>): seq<Observation> {
    if os == [] then []
    else
      var before := Trusted(os[..|os| - 1]);
      if os[|os| - 1].suspicious then before else before + [os[|os| - 1]]
  }

  /** Everything a baseline has learned. */
  predicate SameLearning(s: Stats, t: Stats) {
    && s.ewma == t.ewma && s.variance == t.variance && s.learned == t.learned
    && s.promoted == t.promoted && s.peak == t.peak && s.confidence == t.confidence
  }

  lemma UpdateLearning(s: Stats, t: Stats, o: Observation, cfg: Config)
    requires SameLearning(s, t)
    ensures SameLearning(Update(s, o, cfg), if o.suspicious then t else Update(t, o, cfg))
  {
  }

  /** Anti-poisoning: deleting every suspicious update from a run changes nothing that was learned. */
  lemma {:induction false} SuspiciousErased(s: Stats, os: seq<Observation>, cfg: Config)
    ensures SameLearning(Run(s, os, cfg), Run(s, Trusted(os), cfg))
  {
    if os != [] {
      var (before, o) := (os[..|os| - 1], os[|os| - 1]);
      SuspiciousErased(s, before, cfg);
      UpdateLearning(Run(s, before, cfg), Run(s, Trusted(before), cfg), o, cfg);
      if !o.suspicious { assert Trusted(os)[..|Trusted(before)|] == Trusted(before); }
    }
  }

  /** What every update of a profile keeps: counts add up, promotion is exactly having learned enough and,
      at rates that average, a promoted mean never exceeds the peak. */
  predicate Sound(s: Stats, cfg: Config) {
    && s.count == s.learned + s.suspicious
    && (s.promoted <==> s.learned >= cfg.minCount)
    && s.confidence <= 1.0
    && (Rates(cfg) ==> s.variance >= 0.0 && (s.promoted ==> s.ewma <= s.peak))
  }

  lemma Convex(e: real, v: real, a: real, lo: real, hi: real)
    requires 0.0 < a <= 1.0 && lo <= e <= hi && lo <= v <= hi
    ensures lo <= Average(e, v, a) <= hi
  {
    assert Average(e, v, a) - lo == (1.0 - a) * (e - lo) + a * (v - lo);
    assert hi - Average(e, v, a) == (1.0 - a) * (hi - e) + a * (hi - v);
    MulNonNegative(1.0 - a, e - lo);
    MulNonNegative(a, v - lo);
    MulNonNegative(1.0 - a, hi - e);
    MulNonNegative(a, hi - v);
  }

  lemma SpreadBounds(variance: real, delta: real, a: real, range: real)
    requires 0.0 < a <= 1.0 && variance >= 0.0 && range >= 0.0
    ensures Spread(variance, delta, a) >= 0.0
    ensures variance <= range * range && -range <= delta <= range ==> Spread(variance, delta, a) <= range * range
  {
    assert delta * delta >= 0.0;
    assert a * delta * delta == a * (delta * delta);
    MulNonNegative(1.0 - a, variance);
    MulNonNegative(a, delta * delta);
    if variance <= range * range && -range <= delta <= range {
      SquareBound(delta, range);
      var (v, d) := (range * range - variance, range * range - delta * delta);
      MulNonNegative(1.0 - a, v);
      MulNonNegative(a, d);
      assert range * range - Spread(variance, delta, a) == (1.0 - a) * v + a * d;
    }
  }

  lemma SquareBound(delta: real, range: real)
    requires -range <= delta <= range
    ensures delta * delta <= range * range
  {
    MulNonNegative(range - delta, range + delta);
    assert (range - delta) * (range + delta) == range * range - delta * delta;
  }

  lemma UpdateKeepsSound(s: Stats, o: Observation, cfg: Config)
    requires cfg.minCount > 0 && Sound(s, cfg)
    ensures Sound(Update(s, o, cfg), cfg)
  {
    if Rates(cfg) && !o.suspicious && s.learned > 0 {
      var a := if s.promoted then cfg.alphaPromoted else cfg.alpha;
      SpreadBounds(s.variance, o.value - s.ewma, a, 0.0);
      var top := if s.promoted && o.value > s.peak then o.value else s.peak;
      if s.promoted {
        Convex(s.ewma, o.value, a, if o.value < s.ewma then o.value else s.ewma, top);
      }
    }
  }

  lemma {:induction false} RunIsSound(now: int, os: seq<Observation>, cfg: Config)
    requires cfg.minCount > 0
    ensures Sound(Run(Fresh(now), os, cfg), cfg)
  {
    if os != [] {
      RunIsSound(now, os[..|os| - 1], cfg);
      UpdateKeepsSound(Run(Fresh(now), os[..|os| - 1], cfg), os[|os| - 1], cfg);
    }
  }

  /** Mean and peak inside the range, variance inside its square. */
  predicate Within(s: Stats, lo: real, hi: real) {
    s.learned > 0 ==>
      && lo <= s.ewma <= hi
      && 0.0 <= s.variance <= (hi - lo) * (hi - lo)
      && (s.promoted ==> lo <= s.peak <= hi)
  }

  lemma UpdateKeepsWithin(s: Stats, o: Observation, cfg: Config, lo: real, hi: real)
    requires Rates(cfg) && Within(s, lo, hi) && (s.learned == 0 ==> !s.promoted)
    requires !o.suspicious ==> lo <= o.value <= hi
    ensures Within(Update(s, o, cfg), lo, hi)
  {
    if !o.suspicious {
      if s.learned == 0 {
        MulNonNegative(hi - lo, hi - lo);
      } else {
        var a := if s.promoted then cfg.alphaPromoted else cfg.alpha;
        Convex(s.ewma, o.value, a, lo, hi);
        SpreadBounds(s.variance, o.value - s.ewma, a, hi - lo);
      }
    }
  }

  /** Whatever bounds the learned values: suspicious ones cannot move the statistics outside them. */
  lemma {:induction false} StatisticsInHull(now: int, os: seq<Observation>, cfg: Config, lo: real, hi: real)
    requires Rates(cfg) && cfg.minCount > 0
    requires forall i | 0 <= i < |os| && !os[i].suspicious :: lo <= os[i].value <= hi
    ensures Within(Run(Fresh(now), os, cfg), lo, hi)
  {
    if os != [] {
      var before := os[..|os| - 1];
      StatisticsInHull(now, before, cfg, lo, hi);
      RunIsSound(now, before, cfg);
      UpdateKeepsWithin(Run(Fresh(now), before, cfg), os[|os| - 1], cfg, lo, hi);
    }
  }

  /** The baseline at the moment of promotion, then every value learned since. */
  function SincePromotion(now: int, os: seq<Observation>, cfg: Config): seq<real> {
    if os == [] then []
    else
      var (before, o) := (os[..|os| - 1], os[|os| - 1]);
      var (values, s) := (SincePromotion(now, before, cfg), Run(Fresh(now), before, cfg));
      if o.suspicious then values
      else if s.promoted then values + [o.value]
      else if Update(s, o, cfg).promoted then [Update(s, o, cfg).ewma]
      else values
  }

  /** The peak of a promoted profile is the greatest of those values. */
  lemma {:induction false} PeakIsHighest(now: int, os: seq<Observation>, cfg: Config)
    ensures var (s, values) := (Run(Fresh(now), os, cfg), SincePromotion(now, os, cfg));
      s.promoted ==> s.peak in values && forall v | v in values :: v <= s.peak
    ensures Run(Fresh(now), os, cfg).learned == 0 ==> !Run(Fresh(now), os, cfg).promoted
  {
    if os != [] { PeakIsHighest(now, os[..|os| - 1], cfg); }
  }

  // ---------------------------------------------------------------- scoring

  function Abs(x: real): real {
    if x < 0.0 then -x else x
  }

  /** `root` is the square root of the variance. */
  function Sigma(root: real, cfg: Config): (sigma: real)
    ensures sigma >= cfg.sigmaFloor && sigma >= root
    ensures sigma == cfg.sigmaFloor || sigma == root
  {
    if root < cfg.sigmaFloor then cfg.sigmaFloor else root
  }

  function Score(s: Stats, value: real, root: real, cfg: Config): real
    requires cfg.sigmaFloor > 0.0 && cfg.deviationThreshold > 0.0
  {
    if !s.promoted then 0.0
    else Min(Abs(value - s.ewma) / Sigma(root, cfg) / cfg.deviationThreshold * 100.0, 100.0)
  }

  /** The score is a percentage; it is 0 exactly when there is no baseline or no deviation, and 100
      exactly from the threshold number of sigmas on. */
  lemma ScoreMeaning(s: Stats, value: real, root: real, cfg: Config)
    requires cfg.sigmaFloor > 0.0 && cfg.deviationThreshold > 0.0 && root >= 0.0 && root * root == s.variance
    ensures var score := Score(s, value, root, cfg);
      && 0.0 <= score <= 100.0
      && (score == 0.0 <==> !s.promoted || value == s.ewma)
      && (score == 100.0 <==> s.promoted && Abs(value - s.ewma) >= cfg.deviationThreshold * Sigma(root, cfg))
  {
    var (d, sigma, t) := (Abs(value - s.ewma), Sigma(root, cfg), cfg.deviationThreshold);
    DivideTwice(d, sigma, t);
  }

  lemma DivideTwice(d: real, sigma: real, t: real)
    requires d >= 0.0 && sigma > 0.0 && t > 0.0
    ensures var q := d / sigma / t * 100.0;
      q >= 0.0 && (q == 0.0 <==> d == 0.0) && (q >= 100.0 <==> d >= t * sigma)
  {
    var q := d / sigma / t;
    assert d == q * (t * sigma) by { assert d == d / sigma * sigma && d / sigma == q * t; }
    var unit := t * sigma;
    assert unit > 0.0;
    if q >= 1.0 { MulNonNegative(q - 1.0, unit); } else { Positive(1.0 - q, unit); }
    if q < 0.0 { Positive(-q, unit); }
    if q > 0.0 { Positive(q, unit); }
  }

  lemma Positive(x: real, y: real)
    requires x > 0.0 && y > 0.0
    ensures x * y > 0.0
  {
  }
}
