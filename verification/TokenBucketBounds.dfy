/** Admission bounds of the token bucket over whole sequences of calls. */
module TokenBucketBounds {
  import opened TokenBucket

  /** The bucket after a sequence of calls, and how many of them were admitted. */
  function Run(c: ActiveCfg, b: Bucket, clocks: seq<nat>): (r: (Bucket, nat)) {
    if clocks == [] then (b, 0)
    else
      var (b1, n) := Run(c, b, clocks[..|clocks| - 1]);
      var (b2, ok) := Step(c, b1, clocks[|clocks| - 1]);
      (b2, if ok then n + 1 else n)
  }

  /** Packets admitted since creation at `created`, counting the creating packet itself. */
  function Admitted(c: ActiveCfg, created: nat, clocks: seq<nat>): nat {
    1 + Run(c, Create(c, created), clocks).1
  }

  predicate NoLaterThan(clocks: seq<nat>, horizon: nat) {
    forall i | 0 <= i < |clocks| :: clocks[i] <= horizon
  }

  predicate Nondecreasing(clocks: seq<nat>, start: nat) {
    && (forall i | 0 <= i < |clocks| :: start <= clocks[i])
    && (forall i, j | 0 <= i < j < |clocks| :: clocks[i] <= clocks[j])
  }

  // ---------------------------------------------------------------- the kernel's words over a run

  function WordRun(c: ActiveCfg, b: Bucket, clocks: seq<u64>): (r: (Bucket, nat))
    requires b.IsWord()
    ensures r.0.IsWord()
  {
    if clocks == [] then (b, 0)
    else
      var (b1, n) := WordRun(c, b, clocks[..|clocks| - 1]);
      var (b2, ok) := WordStep(c, b1, clocks[|clocks| - 1]);
      (b2, if ok then n + 1 else n)
  }

  /** Every bound below is about `Run`; for configurations that fit the word it is about the kernel. */
  lemma {:induction false} WordRunAgrees(c: ActiveCfg, b: Bucket, clocks: seq<u64>)
    requires FitsWord(c) && b.IsWord()
    ensures WordRun(c, b, clocks) == Run(c, b, clocks)
  {
    if clocks != [] {
      WordRunAgrees(c, b, clocks[..|clocks| - 1]);
      WordAgrees(c, WordRun(c, b, clocks[..|clocks| - 1]).0, clocks[|clocks| - 1]);
    }
  }

  // ---------------------------------------------------------------- upper bound

  /** No rounding is lost: rate and 10^9 divide one another, or one nanosecond earns the burst. */
  predicate Exact(c: ActiveCfg) {
    NSEC_PER_SEC % c.ratePps == 0 || c.ratePps % NSEC_PER_SEC == 0 || c.burst * NSEC_PER_SEC <= c.ratePps
  }

  /** What one granted token costs at least, in units of 1/rate nanoseconds. The two floors lose
      nothing when rate and 10^9 divide one another, or when one nanosecond fills the bucket. */
  function TokenCost(c: ActiveCfg): nat {
    if Exact(c) then
      NSEC_PER_SEC
    else if c.ratePps <= NSEC_PER_SEC then
      NSEC_PER_SEC - c.ratePps + 1
    else
      0
  }

  /** A partial refill pays for the tokens it grants by advancing the clock mark. */
  lemma PartialPays(c: ActiveCfg, b: Bucket, now: nat, add: nat, adv: nat)
    requires PartialRefill(c, b, now, add, adv)
    ensures add * TokenCost(c) <= adv * c.ratePps
  {
    var rate, delta := c.ratePps, now - b.lastNs;
    if NSEC_PER_SEC % rate == 0 {
      DivisibleRemainder(add, NSEC_PER_SEC, rate, adv);
    } else if rate % NSEC_PER_SEC == 0 {
      var q := rate / NSEC_PER_SEC;
      assert rate == q * NSEC_PER_SEC;
      assert delta * rate == (delta * q) * NSEC_PER_SEC;
      assert add == delta * q;
      assert (delta * q) * NSEC_PER_SEC == delta * rate;
      if adv < delta { MulMono(adv + 1, delta, rate); }
    } else if c.burst * NSEC_PER_SEC <= rate {
      MulMono(c.burst - b.tokens, c.burst, NSEC_PER_SEC);
      MulMono(1, delta, rate);
      assert false;
    } else if rate <= NSEC_PER_SEC {
      assert add * (NSEC_PER_SEC - rate + 1) == add * NSEC_PER_SEC - add * (rate - 1);
      MulMono(1, add, rate - 1);
    }
  }

  lemma DivisibleRemainder(add: nat, ns: nat, rate: nat, adv: nat)
    requires rate > 0 && ns % rate == 0
    requires adv * rate <= add * ns < adv * rate + rate
    ensures adv * rate == add * ns
  {
    var k := ns / rate;
    assert ns == k * rate;
    assert add * ns == (add * k) * rate;
    if add * k > adv { MulMono(adv + 1, add * k, rate); }
    if add * k < adv { MulMono(add * k + 1, adv, rate); }
  }

  lemma RefillPays(c: ActiveCfg, b: Bucket, now: nat)
    requires b.tokens < c.burst
    ensures var r := Refill(c, b, now);
      && b.tokens <= r.tokens && b.lastNs <= r.lastNs
      && (r.tokens - b.tokens) * TokenCost(c) <= (r.lastNs - b.lastNs) * c.ratePps
  {
    RefillCases(c, b, now);
    var r := Refill(c, b, now);
    if r != b {
      if r.tokens == c.burst {
        MulMono(TokenCost(c), NSEC_PER_SEC, c.burst - b.tokens);
      } else {
        PartialPays(c, b, now, r.tokens - b.tokens, r.lastNs - b.lastNs);
      }
    }
  }

  /** The account every reachable bucket balances: tokens spent and held, beyond the initial burst,
      have been paid for by the distance the clock mark has travelled. */
  ghost predicate Accounted(c: ActiveCfg, created: nat, b: Bucket, admitted: nat, horizon: nat) {
    && b.tokens < c.burst
    && created <= b.lastNs <= horizon
    && (admitted + b.tokens - c.burst) * TokenCost(c) <= (b.lastNs - created) * c.ratePps
  }

  lemma CreateAccounted(c: ActiveCfg, created: nat, horizon: nat)
    requires created <= horizon
    ensures Accounted(c, created, Create(c, created), 1, horizon)
  {
  }

  lemma StepAccounted(c: ActiveCfg, created: nat, b: Bucket, admitted: nat, horizon: nat, now: nat)
    requires Accounted(c, created, b, admitted, horizon)
    requires now <= horizon
    ensures var (r, ok) := Step(c, b, now);
      Accounted(c, created, r, if ok then admitted + 1 else admitted, horizon)
  {
    StepKeepsRange(c, b, now);
    RefillPays(c, b, now);
    var f := Refill(c, b, now);
    var excess := admitted + b.tokens - c.burst;
    Distribute(excess, f.tokens - b.tokens, TokenCost(c));
    Distribute(b.lastNs - created, f.lastNs - b.lastNs, c.ratePps);
    assert admitted + f.tokens - c.burst == excess + (f.tokens - b.tokens);
    assert (admitted + f.tokens - c.burst) * TokenCost(c) <= (f.lastNs - created) * c.ratePps;
  }

  lemma Distribute(x: int, y: int, k: int)
    ensures (x + y) * k == x * k + y * k
  {
  }

  lemma {:induction false} RunAccounted(c: ActiveCfg, created: nat, clocks: seq<nat>, horizon: nat)
    requires created <= horizon && NoLaterThan(clocks, horizon)
    ensures Accounted(c, created, Run(c, Create(c, created), clocks).0, Admitted(c, created, clocks), horizon)
  {
    if clocks == [] {
      CreateAccounted(c, created, horizon);
    } else {
      var init := clocks[..|clocks| - 1];
      RunAccounted(c, created, init, horizon);
      StepAccounted(c, created, Run(c, Create(c, created), init).0, Admitted(c, created, init), horizon,
                    clocks[|clocks| - 1]);
    }
  }

  lemma AccountBounds(c: ActiveCfg, created: nat, b: Bucket, admitted: nat, horizon: nat)
    requires Accounted(c, created, b, admitted, horizon)
    ensures (admitted - c.burst) * TokenCost(c) <= (horizon - created) * c.ratePps
  {
    MulMono(b.lastNs - created, horizon - created, c.ratePps);
    assert (admitted + b.tokens - c.burst) * TokenCost(c)
        == (admitted - c.burst) * TokenCost(c) + b.tokens * TokenCost(c);
  }

  lemma CheaperCost(excess: int, cost: nat, cheaper: nat, paid: nat)
    requires excess * cost <= paid && cheaper <= cost
    ensures excess * cheaper <= paid
  {
    if excess > 0 {
      MulMono(cheaper, cost, excess);
    } else {
      MulMono(0, -excess, cheaper);
    }
  }

  lemma AdmittedPaid(c: ActiveCfg, created: nat, clocks: seq<nat>, horizon: nat)
    requires created <= horizon && NoLaterThan(clocks, horizon)
    ensures (Admitted(c, created, clocks) - c.burst) * TokenCost(c) <= (horizon - created) * c.ratePps
  {
    RunAccounted(c, created, clocks, horizon);
    AccountBounds(c, created, Run(c, Create(c, created), clocks).0, Admitted(c, created, clocks), horizon);
  }

  /** Rate upper bound: clocks may run backwards between CPUs; only the latest one matters. */
  lemma RateUpperBound(c: ActiveCfg, created: nat, clocks: seq<nat>, horizon: nat)
    requires c.ratePps <= NSEC_PER_SEC
    requires created <= horizon && NoLaterThan(clocks, horizon)
    ensures (Admitted(c, created, clocks) - c.burst) * (NSEC_PER_SEC - c.ratePps + 1) <= (horizon - created) * c.ratePps
  {
    AdmittedPaid(c, created, clocks, horizon);
    CheaperCost(Admitted(c, created, clocks) - c.burst, TokenCost(c), NSEC_PER_SEC - c.ratePps + 1,
                (horizon - created) * c.ratePps);
  }

  /** Then the bound sharpens to the nominal rate. */
  lemma ExactRateUpperBound(c: ActiveCfg, created: nat, clocks: seq<nat>, horizon: nat)
    requires Exact(c)
    requires created <= horizon && NoLaterThan(clocks, horizon)
    ensures (Admitted(c, created, clocks) - c.burst) * NSEC_PER_SEC <= (horizon - created) * c.ratePps
  {
    AdmittedPaid(c, created, clocks, horizon);
    CheaperCost(Admitted(c, created, clocks) - c.burst, TokenCost(c), NSEC_PER_SEC, (horizon - created) * c.ratePps);
  }

  // ---------------------------------------------------------------- when there is a bound at all

  ghost predicate BoundedBy(c: ActiveCfg, created: nat, horizon: nat, bound: nat) {
    forall clocks: seq<nat> | NoLaterThan(clocks, horizon) :: Admitted(c, created, clocks) <= bound
  }

  ghost predicate LimitsSpan(c: ActiveCfg, created: nat, horizon: nat) {
    exists bound: nat :: BoundedBy(c, created, horizon, bound)
  }

  /** Over every time span, admissions have some finite bound, whatever calls arrive. */
  ghost predicate AlwaysLimits(c: ActiveCfg) {
    forall created: nat, horizon: nat | created <= horizon :: LimitsSpan(c, created, horizon)
  }

  /** Calls that drain the bucket at the creation clock and top it up one nanosecond later. */
  function DrainAndTop(c: ActiveCfg, created: nat, n: nat): seq<nat> {
    if n == 0 then []
    else
      var before := DrainAndTop(c, created, n - 1);
      before + [DrainOrTop(Run(c, Create(c, created), before).0, created)]
  }

  lemma {:induction false} DrainShape(c: ActiveCfg, created: nat, n: nat)
    ensures |DrainAndTop(c, created, n)| == n && NoLaterThan(DrainAndTop(c, created, n), created + 1)
  {
    if n > 0 { DrainShape(c, created, n - 1); }
  }

  /** Above 10^9 per second the advance can round to zero: tokens are added and no time passes. */
  lemma {:induction false} StalledMark(c: ActiveCfg, created: nat, n: nat)
    requires TokenCost(c) == 0
    ensures Stalled(c, created, Run(c, Create(c, created), DrainAndTop(c, created, n)), n)
  {
    if n > 0 {
      StalledMark(c, created, n - 1);
      OneMoreStalls(c, created, DrainAndTop(c, created, n - 1), n - 1);
    }
  }

  function DrainOrTop(b: Bucket, created: nat): nat {
    if b.tokens == 0 then created + 1 else created
  }

  lemma OneMoreStalls(c: ActiveCfg, created: nat, before: seq<nat>, n: nat)
    requires TokenCost(c) == 0 && Stalled(c, created, Run(c, Create(c, created), before), n)
    ensures var next := DrainOrTop(Run(c, Create(c, created), before).0, created);
      Stalled(c, created, Run(c, Create(c, created), before + [next]), n + 1)
  {
    var b := Run(c, Create(c, created), before).0;
    StalledCall(c, created, b);
    RunLast(c, Create(c, created), before, DrainOrTop(b, created));
  }

  /** All `n` calls were admitted, and the clock mark has not moved. */
  predicate Stalled(c: ActiveCfg, created: nat, r: (Bucket, nat), n: nat) {
    r.1 == n && r.0.lastNs == created && r.0.tokens < c.burst
  }

  lemma RunLast(c: ActiveCfg, b: Bucket, clocks: seq<nat>, now: nat)
    ensures var ((b1, n), r) := (Run(c, b, clocks), Run(c, b, clocks + [now]));
      r == (Step(c, b1, now).0, if Step(c, b1, now).1 then n + 1 else n)
  {
    assert (clocks + [now])[..|clocks + [now]| - 1] == clocks;
  }

  /** One more call of that pattern is admitted and leaves the clock mark where it was. */
  lemma StalledCall(c: ActiveCfg, created: nat, b: Bucket)
    requires TokenCost(c) == 0 && b.lastNs == created && b.tokens < c.burst
    ensures var (r, ok) := Step(c, b, DrainOrTop(b, created));
      ok && r.lastNs == created && r.tokens < c.burst
  {
    if b.tokens == 0 {
      TopUpStalls(c, b);
    } else {
      EmptyRefillAt(c, b);
    }
  }

  lemma EmptyRefillAt(c: ActiveCfg, b: Bucket)
    requires b.tokens < c.burst
    ensures Refill(c, b, b.lastNs) == b
  {
    CeilDiv(0, (c.burst - b.tokens) * NSEC_PER_SEC, c.ratePps);
  }

  lemma TopUpStalls(c: ActiveCfg, b: Bucket)
    requires TokenCost(c) == 0 && b.tokens == 0
    ensures var r := Refill(c, b, b.lastNs + 1);
      r.lastNs == b.lastNs && 0 < r.tokens <= c.burst
  {
    CeilDiv(1, c.burst * NSEC_PER_SEC, c.ratePps);
    var add := c.ratePps / NSEC_PER_SEC;
    assert c.ratePps == add * NSEC_PER_SEC + c.ratePps % NSEC_PER_SEC;
    DivBounds(add * NSEC_PER_SEC, c.ratePps);
    var adv := add * NSEC_PER_SEC / c.ratePps;
    if adv > 0 { MulMono(1, adv, c.ratePps); }
  }

  lemma CostBounds(c: ActiveCfg, created: nat, clocks: seq<nat>, horizon: nat)
    requires TokenCost(c) > 0 && created <= horizon && NoLaterThan(clocks, horizon)
    ensures Admitted(c, created, clocks) <= c.burst + (horizon - created) * c.ratePps
  {
    AdmittedPaid(c, created, clocks, horizon);
    CheaperCost(Admitted(c, created, clocks) - c.burst, TokenCost(c), 1, (horizon - created) * c.ratePps);
  }

  lemma NoCostNoBound(c: ActiveCfg, bound: nat)
    requires TokenCost(c) == 0
    ensures !BoundedBy(c, 0, 1, bound)
  {
    DrainShape(c, 0, bound);
    StalledMark(c, 0, bound);
    assert NoLaterThan(DrainAndTop(c, 0, bound), 1);
    assert !(Admitted(c, 0, DrainAndTop(c, 0, bound)) <= bound);
  }

  /** The bucket limits at all exactly when a granted token has a nonzero cost: at rates up to 10^9,
      at multiples of 10^9, and when a single nanosecond earns the whole burst. */
  lemma LimitsIff(c: ActiveCfg)
    ensures AlwaysLimits(c) <==> (c.ratePps <= NSEC_PER_SEC || Exact(c))
  {
    if TokenCost(c) > 0 {
      forall created: nat, horizon: nat | created <= horizon
        ensures LimitsSpan(c, created, horizon)
      {
        forall clocks: seq<nat> | NoLaterThan(clocks, horizon)
          ensures Admitted(c, created, clocks) <= c.burst + (horizon - created) * c.ratePps
        {
          CostBounds(c, created, clocks, horizon);
        }
        assert BoundedBy(c, created, horizon, c.burst + (horizon - created) * c.ratePps);
      }
    } else {
      forall bound: nat ensures !BoundedBy(c, 0, 1, bound) {
        NoCostNoBound(c, bound);
      }
      assert !LimitsSpan(c, 0, 1);
    }
  }

  // ---------------------------------------------------------------- lower bound

  /** The ideal bucket: a real level that fills continuously at `rate` up to `burst`. */
  datatype Ideal = Ideal(at: nat, level: real)

  function Earned(c: ActiveCfg, ns: nat): real {
    (ns * c.ratePps) as real / NSEC_PER_SEC as real
  }

  function CappedLevel(c: ActiveCfg, x: real): real {
    if x > c.burst as real then c.burst as real else x
  }

  function IdealStep(c: ActiveCfg, i: Ideal, now: nat): (Ideal, bool)
    requires i.at <= now
  {
    var level := CappedLevel(c, i.level + Earned(c, now - i.at));
    if level >= 1.0 then (Ideal(now, level - 1.0), true) else (Ideal(now, level), false)
  }

  function IdealRun(c: ActiveCfg, i: Ideal, clocks: seq<nat>): (r: (Ideal, nat))
    requires Nondecreasing(clocks, i.at)
    ensures clocks == [] ==> r.0.at == i.at
    ensures clocks != [] ==> r.0.at == clocks[|clocks| - 1]
  {
    if clocks == [] then (i, 0)
    else
      var init := clocks[..|clocks| - 1];
      var (i1, n) := IdealRun(c, i, init);
      var (i2, ok) := IdealStep(c, i1, clocks[|clocks| - 1]);
      (i2, if ok then n + 1 else n)
  }

  /** The ideal bucket starts full and its first packet leaves `burst - 1`. */
  function IdealAdmitted(c: ActiveCfg, created: nat, clocks: seq<nat>): nat
    requires Nondecreasing(clocks, created)
  {
    1 + IdealRun(c, Ideal(created, (c.burst - 1) as real), clocks).1
  }

  /** What an integer bucket is worth at `now`: its tokens and the time not yet converted. */
  function Worth(c: ActiveCfg, b: Bucket, now: nat): real
    requires b.lastNs <= now
  {
    CappedLevel(c, b.tokens as real + Earned(c, now - b.lastNs))
  }

  /** The integer bucket has admitted at least as much, and any lead of the ideal level over its
      worth has been admitted already. */
  ghost predicate Dominates(c: ActiveCfg, b: Bucket, n: nat, i: Ideal, m: nat) {
    && b.tokens < c.burst && b.lastNs <= i.at
    && m <= n
    && i.level + m as real <= Worth(c, b, i.at) + n as real
  }

  lemma EarnedSum(c: ActiveCfg, x: nat, y: nat)
    ensures Earned(c, x + y) == Earned(c, x) + Earned(c, y)
  {
    assert (x + y) * c.ratePps == x * c.ratePps + y * c.ratePps;
  }

  /** Both floors of a partial refill round in favour of the bucket: its worth never drops. */
  lemma RefillKeepsWorth(c: ActiveCfg, b: Bucket, now: nat)
    requires b.lastNs <= now && b.tokens < c.burst
    ensures Refill(c, b, now).lastNs <= now && Refill(c, b, now).tokens <= c.burst
    ensures Worth(c, Refill(c, b, now), now) >= Worth(c, b, now)
  {
    RefillCases(c, b, now);
    var r := Refill(c, b, now);
    if r != b && r.tokens < c.burst {
      EarnedSum(c, r.lastNs - b.lastNs, now - r.lastNs);
    }
  }

  lemma DominatesStep(c: ActiveCfg, b: Bucket, n: nat, i: Ideal, m: nat, now: nat)
    requires Dominates(c, b, n, i, m) && i.at <= now
    ensures var ((b', ok), (i', iok)) := (Step(c, b, now), IdealStep(c, i, now));
      Dominates(c, b', if ok then n + 1 else n, i', if iok then m + 1 else m)
  {
    LevelBelowWorth(c, b, n, i, m, now);
    RefillKeepsWorth(c, b, now);
    if Refill(c, b, now).tokens == 0 { EmptyIsWorthless(c, b, now); }
    TakeDominates(c, Refill(c, b, now), n, i, m, now);
  }

  /** Both buckets give a token if they can: the integer one never falls behind. */
  lemma TakeDominates(c: ActiveCfg, f: Bucket, n: nat, i: Ideal, m: nat, now: nat)
    requires i.at <= now && f.lastNs <= now && f.tokens <= c.burst && m <= n
    requires CappedLevel(c, i.level + Earned(c, now - i.at)) + m as real <= Worth(c, f, now) + n as real
    requires f.tokens == 0 ==> Worth(c, f, now) < 1.0
    ensures var ((b', ok), (i', iok)) := (Take(f), IdealStep(c, i, now));
      Dominates(c, b', if ok then n + 1 else n, i', if iok then m + 1 else m)
  {
  }

  lemma LevelBelowWorth(c: ActiveCfg, b: Bucket, n: nat, i: Ideal, m: nat, now: nat)
    requires Dominates(c, b, n, i, m) && i.at <= now
    ensures CappedLevel(c, i.level + Earned(c, now - i.at)) + m as real <= Worth(c, b, now) + n as real
  {
    EarnedSum(c, i.at - b.lastNs, now - i.at);
  }

  lemma EmptyIsWorthless(c: ActiveCfg, b: Bucket, now: nat)
    requires b.lastNs <= now && Refill(c, b, now).tokens == 0
    ensures Refill(c, b, now) == b && Worth(c, b, now) < 1.0
  {
    EmptyAfterRefill(c, b, now);
  }

  lemma {:induction false} DominatesRun(c: ActiveCfg, created: nat, clocks: seq<nat>)
    requires Nondecreasing(clocks, created)
    ensures
      var (b, n) := Run(c, Create(c, created), clocks);
      var (i, m) := IdealRun(c, Ideal(created, (c.burst - 1) as real), clocks);
      Dominates(c, b, n, i, m)
  {
    if clocks != [] {
      var init := clocks[..|clocks| - 1];
      DominatesRun(c, created, init);
      var (b, n) := Run(c, Create(c, created), init);
      var (i, m) := IdealRun(c, Ideal(created, (c.burst - 1) as real), init);
      DominatesStep(c, b, n, i, m, clocks[|clocks| - 1]);
    }
  }

  /** Rate lower bound: at every point of a nondecreasing arrival sequence the integer bucket has
      admitted at least as many packets as the ideal one. (Prefixes of such a sequence are such
      sequences, so this covers every prefix.) */
  lemma RateLowerBound(c: ActiveCfg, created: nat, clocks: seq<nat>)
    requires Nondecreasing(clocks, created)
    ensures IdealAdmitted(c, created, clocks) <= Admitted(c, created, clocks)
  {
    DominatesRun(c, created, clocks);
  }

  /** A packet at least ceil(10^9/rate) ns after the clock mark is admitted by any bucket. */
  lemma SpacedCallAdmitted(c: ActiveCfg, b: Bucket, now: nat)
    requires b.lastNs + (NSEC_PER_SEC + c.ratePps - 1) / c.ratePps <= now
    ensures Step(c, b, now).1
  {
    if !Step(c, b, now).1 {
      EmptyAfterRefill(c, b, now);
      CeilDiv(now - b.lastNs, NSEC_PER_SEC, c.ratePps);
      assert false;
    }
  }

  /** Corollary: a packet that arrives ceil(10^9/rate) ns or more after its predecessor is never dropped. */
  lemma SpacedPacketAdmitted(c: ActiveCfg, created: nat, clocks: seq<nat>, now: nat)
    requires Nondecreasing(clocks, created)
    requires (if clocks == [] then created else clocks[|clocks| - 1])
             + (NSEC_PER_SEC + c.ratePps - 1) / c.ratePps <= now
    ensures Admitted(c, created, clocks + [now]) == Admitted(c, created, clocks) + 1
  {
    DominatesRun(c, created, clocks);
    var last := if clocks == [] then created else clocks[|clocks| - 1];
    assert NoLaterThan(clocks, last);
    RunAccounted(c, created, clocks, last);
    RunLast(c, Create(c, created), clocks, now);
    SpacedCallAdmitted(c, Run(c, Create(c, created), clocks).0, now);
  }
}
