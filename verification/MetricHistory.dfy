/** What a baseline is, as a closed form over the values it has learned: the weight of each value, the mean and
    the variance they give, the counts, the peak and the confidence. */
module MetricHistory {
  import opened MetricBaseline

  // ---------------------------------------------------------------- the history, read directly

  /** The observations that are learned from. */
  function Learned(os: seq<Observation>): (ls: seq<Observation>)
    ensures |ls| <= |os|
  {
    if os == [] then []
    else
      var (before, last) := (Learned(os[..|os| - 1]), os[|os| - 1]);
      if last.suspicious then before else before + [last]
  }

  /** Their values. */
  function Values(os: seq<Observation>): (xs: seq<real>)
    ensures |xs| == |Learned(os)| && forall i | 0 <= i < |xs| :: xs[i] == Learned(os)[i].value
  {
    if os == [] then []
    else
      var (before, last) := (Values(os[..|os| - 1]), os[|os| - 1]);
      if last.suspicious then before else before + [last.value]
  }

  /** The learning rate of the i-th learned value, from 0: it is taken over, then blended, and from the promotion
      on blended more slowly. */
  function Rate(cfg: Config, i: nat): real {
    if i == 0 then 1.0 else if i >= cfg.minCount then cfg.alphaPromoted else cfg.alpha
  }

  function Times(x: real, y: real): real {
    x * y
  }

  /** The weight of the i-th of n values: its own rate, less what every later value takes. */
  function Weight(cfg: Config, i: nat, n: nat): real {
    if n <= i + 1 then Rate(cfg, i) else Times(Weight(cfg, i, n - 1), 1.0 - Rate(cfg, n - 1))
  }

  function Weights(cfg: Config, n: nat): (ws: seq<real>)
    ensures |ws| == n && forall i | 0 <= i < n :: ws[i] == Weight(cfg, i, n)
  {
    seq(n, i requires 0 <= i < n => Weight(cfg, i, n))
  }

  /** The sum of the products of weights and values. */
  function Weighted(ws: seq<real>, xs: seq<real>): real
    requires |ws| == |xs|
  {
    if xs == [] then 0.0 else Weighted(ws[..|xs| - 1], xs[..|xs| - 1]) + Times(ws[|xs| - 1], xs[|xs| - 1])
  }

  function Mean(cfg: Config, xs: seq<real>): real {
    Weighted(Weights(cfg, |xs|), xs)
  }

  /** The squared distance of a value from the mean of those before it; the first has none. */
  function Square(cfg: Config, before: seq<real>, x: real): real {
    if before == [] then 0.0 else (x - Mean(cfg, before)) * (x - Mean(cfg, before))
  }

  function Squares(cfg: Config, xs: seq<real>): (ds: seq<real>)
    ensures |ds| == |xs|
  {
    if xs == [] then []
    else
      var (before, last) := (xs[..|xs| - 1], xs[|xs| - 1]);
      Squares(cfg, before) + [Square(cfg, before, last)]
  }

  function Power(x: real, n: nat): real {
    if n == 0 then 1.0 else Times(Power(x, n - 1), x)
  }

  /** The share of the i-th of n values at one rate: discounted once for every value after it. */
  function Share(a: real, i: nat, n: nat): real
    requires i < n
  {
    if i == 0 then Power(1.0 - a, n - 1) else Times(a, Power(1.0 - a, n - 1 - i))
  }

  function Shares(a: real, n: nat): (ws: seq<real>)
    ensures |ws| == n
  {
    seq(n, i requires 0 <= i < n => Share(a, i, n))
  }

  // ---------------------------------------------------------------- one more value

  lemma {:induction false} WeightedScales(ws: seq<real>, ws': seq<real>, c: real, xs: seq<real>)
    requires |ws| == |ws'| == |xs| && forall i | 0 <= i < |ws| :: ws'[i] == Times(ws[i], c)
    ensures Weighted(ws', xs) == Times(c, Weighted(ws, xs))
  {
    if xs != [] {
      var n := |xs| - 1;
      WeightedScales(ws[..n], ws'[..n], c, xs[..n]);
      Scales(c, Weighted(ws[..n], xs[..n]), Weighted(ws'[..n], xs[..n]), ws[n], ws'[n], xs[n]);
    }
  }

  lemma WeightedSnoc(ws: seq<real>, xs: seq<real>, w: real, x: real)
    requires |ws| == |xs|
    ensures Weighted(ws + [w], xs + [x]) == Weighted(ws, xs) + Times(w, x)
  {
    assert (ws + [w])[..|xs|] == ws && (xs + [x])[..|xs|] == xs;
  }

  lemma Scales(c: real, sum: real, sum': real, w: real, w': real, x: real)
    requires sum' == Times(c, sum) && w' == Times(w, c)
    ensures sum' + Times(w', x) == Times(c, sum + Times(w, x))
  {
    var p := w * x;
    assert (w * c) * x == c * p by { Associates(w, x, c); }
    assert c * sum + c * p == c * (sum + p);
  }

  lemma Associates(x: real, y: real, z: real)
    ensures (x * z) * y == z * (x * y)
  {
    assert (x * z) * y == x * (z * y) && z * y == y * z && x * (y * z) == (x * y) * z;
  }

  lemma WeightsNext(cfg: Config, n: nat, c: real)
    requires c == 1.0 - Rate(cfg, n)
    ensures var (ws, ws') := (Weights(cfg, n), Weights(cfg, n + 1));
      && ws'[n] == Rate(cfg, n) && ws' == ws'[..n] + [Rate(cfg, n)]
      && forall i | 0 <= i < n :: ws'[..n][i] == Times(ws[i], c)
  {
  }

  /** The next value moves the mean `m` by its rate. */
  lemma MeanNext(cfg: Config, xs: seq<real>, x: real, r: real, c: real, m: real)
    requires r == Rate(cfg, |xs|) && c == 1.0 - r && m == Mean(cfg, xs)
    ensures Mean(cfg, xs + [x]) == Times(c, m) + Times(r, x)
  {
    var (ws, ws') := (Weights(cfg, |xs|), Weights(cfg, |xs| + 1));
    WeightsNext(cfg, |xs|, c);
    WeightedSnoc(ws'[..|xs|], xs, r, x);
    WeightedScales(ws, ws'[..|xs|], c, xs);
  }

  lemma SquaresNext(cfg: Config, xs: seq<real>, x: real)
    ensures Squares(cfg, xs + [x]) == Squares(cfg, xs) + [Square(cfg, xs, x)]
  {
    assert (xs + [x])[..|xs|] == xs;
  }

  /** The weights add up to one. */
  lemma {:induction false} WeightsAddUp(cfg: Config, xs: seq<real>, c: real)
    requires xs != [] && forall i | 0 <= i < |xs| :: xs[i] == c
    ensures Mean(cfg, xs) == c
  {
    var before := xs[..|xs| - 1];
    assert xs == before + [c];
    var r := Rate(cfg, |before|);
    MeanNext(cfg, before, c, r, 1.0 - r, Mean(cfg, before));
    if before != [] { WeightsAddUp(cfg, before, c); }
  }

  // ---------------------------------------------------------------- one update

  /** The mean and the variance are those of the values, and a profile is promoted from the value on that
      makes the count. */
  ghost predicate Reads(s: Stats, cfg: Config, xs: seq<real>) {
    && s.learned == |xs| && s.ewma == Mean(cfg, xs) && s.variance == Mean(cfg, Squares(cfg, xs))
    && (s.promoted <==> |xs| > 0 && |xs| >= cfg.minCount)
  }

  lemma Learns(s: Stats, o: Observation, cfg: Config, xs: seq<real>)
    requires Reads(s, cfg, xs) && !o.suspicious
    ensures Reads(Update(s, o, cfg), cfg, xs + [o.value])
  {
    var (r, square) := (Rate(cfg, |xs|), Square(cfg, xs, o.value));
    LearnsStep(s, o, cfg, r, 1.0 - r, square);
    StaysRead(s, Update(s, o, cfg), cfg, xs, o.value, r, 1.0 - r, square);
  }

  lemma StaysRead(s: Stats, s': Stats, cfg: Config, xs: seq<real>, x: real, r: real, c: real, square: real)
    requires Reads(s, cfg, xs) && r == Rate(cfg, |xs|) && c == 1.0 - r && square == Square(cfg, xs, x)
    requires s'.learned == s.learned + 1 && (s'.promoted <==> s'.learned >= cfg.minCount)
    requires s'.ewma == Times(c, s.ewma) + Times(r, x) && s'.variance == Times(c, s.variance) + Times(r, square)
    ensures Reads(s', cfg, xs + [x])
  {
    MeanIs(cfg, xs, x, r, c, s.ewma, s'.ewma);
    VarianceIs(cfg, xs, x, r, c, s.variance, s'.variance, square);
  }

  lemma MeanIs(cfg: Config, xs: seq<real>, x: real, r: real, c: real, m: real, m': real)
    requires r == Rate(cfg, |xs|) && c == 1.0 - r && m == Mean(cfg, xs) && m' == Times(c, m) + Times(r, x)
    ensures Mean(cfg, xs + [x]) == m'
  {
    MeanNext(cfg, xs, x, r, c, m);
  }

  lemma VarianceIs(cfg: Config, xs: seq<real>, x: real, r: real, c: real, v: real, v': real, square: real)
    requires r == Rate(cfg, |xs|) && c == 1.0 - r && v == Mean(cfg, Squares(cfg, xs)) && square == Square(cfg, xs, x)
    requires v' == Times(c, v) + Times(r, square)
    ensures Mean(cfg, Squares(cfg, xs + [x])) == v'
  {
    SquaresNext(cfg, xs, x);
    MeanIs(cfg, Squares(cfg, xs), square, r, c, v, v');
  }

  lemma LearnsStep(s: Stats, o: Observation, cfg: Config, r: real, c: real, square: real)
    requires !o.suspicious && r == Rate(cfg, s.learned) && c == 1.0 - r
    requires s.promoted <==> s.learned > 0 && s.learned >= cfg.minCount
    requires square == if s.learned == 0 then 0.0 else (o.value - s.ewma) * (o.value - s.ewma)
    ensures var s' := Update(s, o, cfg);
      && s'.learned == s.learned + 1 && (s'.promoted <==> s'.learned >= cfg.minCount)
      && s'.ewma == Times(c, s.ewma) + Times(r, o.value)
      && s'.variance == Times(c, s.variance) + Times(r, square)
  {
    var d := o.value - s.ewma;
    Blends(s.ewma, o.value, r, c);
    assert r * d * d == r * (d * d);
  }

  lemma Blends(e: real, v: real, a: real, c: real)
    requires c == 1.0 - a
    ensures e + a * (v - e) == c * e + a * v
  {
  }

  /** An observation that is not learned from leaves what was learned. */
  lemma Skips(s: Stats, o: Observation, cfg: Config)
    requires o.suspicious
    ensures var s' := Update(s, o, cfg);
      (s'.ewma, s'.variance, s'.learned, s'.promoted, s'.peak, s'.confidence, s'.firstSeen)
      == (s.ewma, s.variance, s.learned, s.promoted, s.peak, s.confidence, s.firstSeen)
  {
  }

  // ---------------------------------------------------------------- whole histories

  /** The mean of a run is the weighted mean of the values learned, the variance the weighted mean of their
      squared distances from the mean before them, and promotion comes with the count. */
  lemma {:induction false} RunIsMean(now: int, os: seq<Observation>, cfg: Config)
    ensures var (s, xs) := (Run(Fresh(now), os, cfg), Values(os));
      && s.learned == |xs| && s.ewma == Mean(cfg, xs) && s.variance == Mean(cfg, Squares(cfg, xs))
      && (s.promoted <==> |xs| > 0 && |xs| >= cfg.minCount)
  {
    RunReads(now, os, cfg);
  }

  lemma {:induction false} RunReads(now: int, os: seq<Observation>, cfg: Config)
    ensures Reads(Run(Fresh(now), os, cfg), cfg, Values(os))
  {
    if os != [] {
      var (before, o) := (os[..|os| - 1], os[|os| - 1]);
      RunReads(now, before, cfg);
      if o.suspicious {
        Skips(Run(Fresh(now), before, cfg), o, cfg);
      } else {
        Learns(Run(Fresh(now), before, cfg), o, cfg, Values(before));
      }
    }
  }

  lemma Associative(x: real, y: real, z: real)
    ensures Times(Times(x, y), z) == Times(x, Times(y, z))
  {
  }

  lemma {:induction false} WeightAtRate(cfg: Config, i: nat, n: nat, a: real)
    requires i < n && forall j | 0 < j < n :: Rate(cfg, j) == a
    ensures Weight(cfg, i, n) == Share(a, i, n)
  {
    if i + 1 < n {
      WeightAtRate(cfg, i, n - 1, a);
      if i > 0 { Associative(a, Power(1.0 - a, n - 2 - i), 1.0 - a); }
    }
  }

  /** Up to the promotion the mean of n learned values is `(1 - alpha)^(n - 1)` times the first, plus `alpha` times
      `(1 - alpha)^(n - i)` times the i-th, for i from 2 to n. */
  lemma RunAtOneRate(now: int, os: seq<Observation>, cfg: Config)
    requires |Values(os)| <= cfg.minCount || cfg.alpha == cfg.alphaPromoted
    ensures Run(Fresh(now), os, cfg).ewma == Weighted(Shares(cfg.alpha, |Values(os)|), Values(os))
  {
    RunReadsMean(now, os, cfg);
    SharesAre(cfg, |Values(os)|);
  }

  lemma SharesAre(cfg: Config, n: nat)
    requires n <= cfg.minCount || cfg.alpha == cfg.alphaPromoted
    ensures Weights(cfg, n) == Shares(cfg.alpha, n)
  {
    forall i | 0 <= i < n ensures Weights(cfg, n)[i] == Shares(cfg.alpha, n)[i] { WeightAtRate(cfg, i, n, cfg.alpha); }
  }

  lemma RunReadsMean(now: int, os: seq<Observation>, cfg: Config)
    ensures Run(Fresh(now), os, cfg).ewma == Mean(cfg, Values(os))
  {
    RunReads(now, os, cfg);
  }

  // ---------------------------------------------------------------- the other fields

  /** Counts and times. */
  lemma {:induction false} RunCounts(now: int, os: seq<Observation>, cfg: Config)
    ensures var s := Run(Fresh(now), os, cfg);
      && s.count == |os| && s.learned == |Learned(os)| && s.suspicious == |os| - |Learned(os)|
      && s.lastSeen == (if os == [] then 0 else os[|os| - 1].now)
      && s.firstSeen == (if now != 0 || Learned(os) == [] then now else Learned(os)[0].now)
  {
    if os != [] {
      var (before, o) := (os[..|os| - 1], os[|os| - 1]);
      RunCounts(now, before, cfg);
      if !o.suspicious && Learned(before) != [] { assert Learned(os)[0] == Learned(before)[0]; }
    }
  }

  /** What a promoted profile learned when it was promoted: as many values as the count, or the first. */
  function Promoting(cfg: Config): (n: nat)
    ensures n > 0
  {
    if cfg.minCount > 0 then cfg.minCount else 1
  }

  /** Nothing a promoted profile has learned since exceeds the peak, and neither did its mean on promotion; the
      peak is that mean or one of those values. */
  ghost predicate Tops(peak: real, cfg: Config, xs: seq<real>) {
    var n := Promoting(cfg);
    if |xs| < n then peak == 0.0
    else
      && Mean(cfg, xs[..n]) <= peak && (forall i | n <= i < |xs| :: xs[i] <= peak)
      && (peak == Mean(cfg, xs[..n]) || exists i :: n <= i < |xs| && xs[i] == peak)
  }

  lemma {:induction false} RunPeak(now: int, os: seq<Observation>, cfg: Config)
    ensures Tops(Run(Fresh(now), os, cfg).peak, cfg, Values(os))
  {
    if os != [] {
      var (before, o) := (os[..|os| - 1], os[|os| - 1]);
      var s := Run(Fresh(now), before, cfg);
      RunPeak(now, before, cfg);
      if o.suspicious {
        Skips(s, o, cfg);
      } else {
        RunReads(now, before, cfg);
        Learns(s, o, cfg, Values(before));
        PeakStep(s, o, cfg, Values(before));
      }
    }
  }

  lemma PeakStep(s: Stats, o: Observation, cfg: Config, xs: seq<real>)
    requires Reads(s, cfg, xs) && Tops(s.peak, cfg, xs) && !o.suspicious
    requires Reads(Update(s, o, cfg), cfg, xs + [o.value])
    ensures Tops(Update(s, o, cfg).peak, cfg, xs + [o.value])
  {
    var (all, n, s') := (xs + [o.value], Promoting(cfg), Update(s, o, cfg));
    PeakAfter(s, o, cfg);
    if |all| == n {
      assert all[..n] == all;
    } else if |all| > n {
      assert all[..n] == xs[..n];
      if s'.peak == o.value {
        assert all[|xs|] == s'.peak;
      } else if s.peak != Mean(cfg, xs[..n]) {
        var i :| n <= i < |xs| && xs[i] == s.peak;
        assert all[i] == s'.peak;
      }
    }
  }

  lemma PeakAfter(s: Stats, o: Observation, cfg: Config)
    requires !o.suspicious && (s.promoted <==> s.learned > 0 && s.learned >= cfg.minCount)
    ensures var s' := Update(s, o, cfg);
      s'.peak == if s.promoted then (if o.value > s.peak then o.value else s.peak)
                 else if s.learned + 1 >= cfg.minCount then s'.ewma else s.peak
  {
  }

  /** Six tenths for a hundred learned values and four for a day, each in proportion below that, as of the last
      learned value; the first one is not enough to be confident. */
  lemma {:induction false} RunConfidence(now: int, os: seq<Observation>, cfg: Config)
    ensures var (s, ls) := (Run(Fresh(now), os, cfg), Learned(os));
      if |ls| < 2 then s.confidence == 0.0
      else
        var (n, age) := (|ls| as real, ls[|ls| - 1].age);
        s.confidence == (if n >= 100.0 then 0.6 else 0.006 * n) + if age >= 86400.0 then 0.4 else 0.4 * (age / 86400.0)
  {
    RunCounts(now, os, cfg);
    if os != [] {
      var (before, o) := (os[..|os| - 1], os[|os| - 1]);
      RunConfidence(now, before, cfg);
      RunCounts(now, before, cfg);
      if o.suspicious {
        Skips(Run(Fresh(now), before, cfg), o, cfg);
      } else {
        ConfidenceParts(|Learned(os)|, o.age);
      }
    }
  }

  lemma ConfidenceParts(learned: nat, age: real)
    ensures ConfidenceOf(learned, age)
         == (if learned as real >= 100.0 then 0.6 else 0.006 * learned as real)
            + if age >= 86400.0 then 0.4 else 0.4 * (age / 86400.0)
  {
  }

  /** A setting that is not positive gives way to its default, and only that one. */
  lemma SettingsByDefault(cfg: Config)
    ensures var c := Normalize(cfg);
      && c.alpha == (if cfg.alpha > 0.0 then cfg.alpha else 0.1)
      && c.alphaPromoted == (if cfg.alphaPromoted > 0.0 then cfg.alphaPromoted else 0.02)
      && c.minCount == (if cfg.minCount > 0 then cfg.minCount else 30)
      && c.maxProfiles == (if cfg.maxProfiles > 0 then cfg.maxProfiles else 10000)
      && c.deviationThreshold == (if cfg.deviationThreshold > 0.0 then cfg.deviationThreshold else 4.0)
      && c.sigmaFloor == (if cfg.sigmaFloor > 0.0 then cfg.sigmaFloor else 0.01)
  {
  }

  // ---------------------------------------------------------------- the score

  /** The deviation score is the distance from the mean, in sigmas with a floor, as a percentage of the threshold,
      and never more than a hundred. */
  lemma ScoreExactly(s: Stats, value: real, root: real, cfg: Config)
    requires cfg.sigmaFloor > 0.0 && cfg.deviationThreshold > 0.0
    ensures
      var (score, distance) := (Score(s, value, root, cfg), if value < s.ewma then s.ewma - value else value - s.ewma);
      var limit := cfg.deviationThreshold * if root < cfg.sigmaFloor then cfg.sigmaFloor else root;
      if !s.promoted then score == 0.0
      else if distance >= limit then score == 100.0
      else score * limit == 100.0 * distance
  {
    var (d, sigma, t) := (if value < s.ewma then s.ewma - value else value - s.ewma,
                          if root < cfg.sigmaFloor then cfg.sigmaFloor else root, cfg.deviationThreshold);
    DivideTwice(d, sigma, t);
    Multiplies(d, sigma, t);
  }

  lemma Multiplies(d: real, sigma: real, t: real)
    requires sigma > 0.0 && t > 0.0
    ensures d / sigma / t * 100.0 * (t * sigma) == 100.0 * d
  {
    var (p, q) := (d / sigma, d / sigma / t);
    assert p * sigma == d && q * t == p;
    assert q * 100.0 * (t * sigma) == 100.0 * ((q * t) * sigma);
  }
}
