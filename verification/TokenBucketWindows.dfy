/** What a token bucket admits during a window of a longer run, whatever state the window finds it in. */
module TokenBucketWindows {
  import opened TokenBucket
  import opened TokenBucketBounds

  predicate Within(clocks: seq<nat>, from: nat, until: nat) {
    forall i | 0 <= i < |clocks| :: from <= clocks[i] <= until
  }

  function Span(early: nat, late: nat): nat {
    if early <= late then late - early else 0
  }

  // ---------------------------------------------------------------- what is left to spend

  /** What the tokens cost, and what the time up to `until` can still earn. */
  function Left(c: ActiveCfg, b: Bucket, until: nat): int {
    b.tokens * TokenCost(c) + Span(b.lastNs, until) * c.ratePps
  }

  /** A full bucket and the length of the window. */
  function Cap(c: ActiveCfg, from: nat, until: nat): int {
    c.burst * NSEC_PER_SEC + Span(from, until) * c.ratePps
  }

  /** Tokens left over from a larger burst: they must be spent before the bucket is refilled again. */
  function Excess(c: ActiveCfg, b: Bucket): nat {
    if b.tokens < c.burst then 0 else b.tokens - c.burst + 1
  }

  /** The most a bucket can spend in a window: however long it was idle before, one refill fills it. */
  function Budget(c: ActiveCfg, b: Bucket, from: nat, until: nat): int {
    if b.tokens >= c.burst then
      Cap(c, from, until) + Excess(c, b) * TokenCost(c)
    else if Left(c, b, until) <= Cap(c, from, until) then
      Left(c, b, until)
    else
      Cap(c, from, until)
  }

  lemma CostAtMostNs(c: ActiveCfg, tokens: nat)
    ensures tokens * TokenCost(c) <= tokens * NSEC_PER_SEC
  {
    MulMono(TokenCost(c), NSEC_PER_SEC, tokens);
  }

  lemma SpanSplits(early: nat, middle: nat, late: nat, rate: nat)
    requires early <= middle <= late
    ensures Span(early, late) * rate == Span(early, middle) * rate + Span(middle, late) * rate
  {
    assert (late - early) * rate == (middle - early) * rate + (late - middle) * rate;
  }

  /** A bucket that a call does not fill holds, with the time it has not converted yet, less than a burst. */
  lemma UnfilledIsBelowBurst(c: ActiveCfg, b: Bucket, now: nat)
    requires b.tokens < c.burst && b.lastNs <= now && Refill(c, b, now).tokens < c.burst
    ensures b.tokens * NSEC_PER_SEC + (now - b.lastNs) * c.ratePps <= c.burst * NSEC_PER_SEC
  {
    CeilDiv(now - b.lastNs, (c.burst - b.tokens) * NSEC_PER_SEC, c.ratePps);
    assert (c.burst - b.tokens) * NSEC_PER_SEC == c.burst * NSEC_PER_SEC - b.tokens * NSEC_PER_SEC;
  }

  /** A refill spends nothing. */
  lemma RefillKeepsLeft(c: ActiveCfg, b: Bucket, now: nat, until: nat)
    requires b.tokens < c.burst && now <= until
    ensures Left(c, Refill(c, b, now), until) <= Left(c, b, until)
  {
    var f := Refill(c, b, now);
    RefillCases(c, b, now);
    if f != b {
      RefillPays(c, b, now);
      SpanSplits(b.lastNs, f.lastNs, until, c.ratePps);
      TokensAdded(b.tokens, f.tokens, TokenCost(c));
    }
  }

  lemma TokensAdded(held: nat, all: nat, cost: nat)
    requires held <= all
    ensures all * cost == held * cost + (all - held) * cost
  {
  }

  /** After any refill inside the window the bucket is worth at most a burst at that moment. */
  lemma RefillIsCapped(c: ActiveCfg, b: Bucket, from: nat, now: nat, until: nat)
    requires b.tokens < c.burst && from <= now <= until
    ensures Left(c, Refill(c, b, now), until) <= Cap(c, from, until)
  {
    var f := Refill(c, b, now);
    RefillCases(c, b, now);
    MulMono(until - now, until - from, c.ratePps);
    if f.lastNs > now {
      MulMono(Span(f.lastNs, until), until - now, c.ratePps);
      MulMono(f.tokens, c.burst, NSEC_PER_SEC);
      CostAtMostNs(c, f.tokens);
    } else if f.tokens == c.burst {
      CostAtMostNs(c, c.burst);
    } else {
      UnfilledIsCapped(c, b, now, until);
    }
  }

  lemma UnfilledIsCapped(c: ActiveCfg, b: Bucket, now: nat, until: nat)
    requires b.tokens < c.burst && b.lastNs <= now <= until && Refill(c, b, now).tokens < c.burst
    ensures Left(c, Refill(c, b, now), until) <= c.burst * NSEC_PER_SEC + (until - now) * c.ratePps
  {
    UnfilledIsBelowBurst(c, b, now);
    RefillKeepsLeft(c, b, now, until);
    SpanSplits(b.lastNs, now, until, c.ratePps);
    CostAtMostNs(c, b.tokens);
  }

  // ---------------------------------------------------------------- one call, and runs of calls

  function Price(c: ActiveCfg, admitted: nat): int {
    admitted * TokenCost(c)
  }

  lemma BudgetIsNat(c: ActiveCfg, b: Bucket, from: nat, until: nat)
    ensures Budget(c, b, from, until) >= 0
  {
    MulMono(0, Span(from, until), c.ratePps);
    MulMono(0, Span(b.lastNs, until), c.ratePps);
    MulMono(0, Excess(c, b), TokenCost(c));
    MulMono(0, b.tokens, TokenCost(c));
  }

  lemma PriceOfOneMore(c: ActiveCfg, n: nat)
    ensures Price(c, n + 1) == Price(c, n) + TokenCost(c)
  {
    assert (n + 1) * TokenCost(c) == n * TokenCost(c) + TokenCost(c);
  }

  /** An admitted call inside the window pays its price out of the budget; no call adds to it. */
  lemma StepSpends(c: ActiveCfg, b: Bucket, now: nat, from: nat, until: nat)
    requires from <= now <= until
    ensures var (r, ok) := Step(c, b, now);
      Budget(c, r, from, until) + (if ok then TokenCost(c) else 0) <= Budget(c, b, from, until)
  {
    var f := Refill(c, b, now);
    if f.tokens > 0 { PriceOfOneMore(c, f.tokens - 1); }
    if b.tokens < c.burst {
      RefillKeepsLeft(c, b, now, until);
      RefillIsCapped(c, b, from, now, until);
      RefillCases(c, b, now);
    } else {
      PriceOfOneMore(c, Excess(c, b) - 1);
    }
  }

  lemma {:induction false} RunSpends(c: ActiveCfg, b: Bucket, clocks: seq<nat>, from: nat, until: nat)
    requires Within(clocks, from, until)
    ensures var (r, n) := Run(c, b, clocks);
      Budget(c, r, from, until) + Price(c, n) <= Budget(c, b, from, until)
  {
    if clocks != [] {
      var before := clocks[..|clocks| - 1];
      RunSpends(c, b, before, from, until);
      var (b1, n) := Run(c, b, before);
      StepSpends(c, b1, clocks[|clocks| - 1], from, until);
      PriceOfOneMore(c, n);
    }
  }

  // ---------------------------------------------------------------- bounds over any window

  /** From any bucket at all: what a window admits is paid for by the tokens in excess of the burst, one burst
      and the length of the window. */
  lemma WindowPaid(c: ActiveCfg, b: Bucket, clocks: seq<nat>, from: nat, until: nat)
    requires from <= until && Within(clocks, from, until)
    ensures Run(c, b, clocks).1 * TokenCost(c)
         <= Excess(c, b) * TokenCost(c) + c.burst * NSEC_PER_SEC + (until - from) * c.ratePps
  {
    RunSpends(c, b, clocks, from, until);
    BudgetIsNat(c, Run(c, b, clocks).0, from, until);
  }

  lemma {:induction false} RunThenRun(c: ActiveCfg, b: Bucket, before: seq<nat>, after: seq<nat>)
    ensures var (b1, n) := Run(c, b, before);
      Run(c, b, before + after) == (Run(c, b1, after).0, n + Run(c, b1, after).1)
  {
    if after == [] {
      assert before + after == before;
    } else {
      var (init, last) := (after[..|after| - 1], after[|after| - 1]);
      RunThenRun(c, b, before, init);
      assert (before + after)[..|before + after| - 1] == before + init;
    }
  }

  lemma {:induction false} RunBelowBurst(c: ActiveCfg, created: nat, clocks: seq<nat>)
    ensures Run(c, Create(c, created), clocks).0.tokens < c.burst
  {
    if clocks != [] {
      var before := clocks[..|clocks| - 1];
      RunBelowBurst(c, created, before);
      StepKeepsRange(c, Run(c, Create(c, created), before).0, clocks[|clocks| - 1]);
    }
  }

  /** Admissions of a run that fall into its last part. */
  function AdmittedIn(c: ActiveCfg, created: nat, before: seq<nat>, window: seq<nat>): int {
    Admitted(c, created, before + window) - Admitted(c, created, before)
  }

  /** Over any window of any run: whatever happened before it, and in whatever clock order. */
  lemma AnyWindowPaid(c: ActiveCfg, created: nat, before: seq<nat>, window: seq<nat>, from: nat, until: nat)
    requires from <= until && Within(window, from, until)
    ensures 0 <= AdmittedIn(c, created, before, window)
    ensures AdmittedIn(c, created, before, window) * TokenCost(c) <= c.burst * NSEC_PER_SEC + (until - from) * c.ratePps
  {
    RunThenRun(c, Create(c, created), before, window);
    RunBelowBurst(c, created, before);
    WindowPaid(c, Run(c, Create(c, created), before).0, window, from, until);
  }

  /** Up to 10^9 per second, each admission of a window costs at least 10^9 - rate + 1. */
  lemma WindowUpperBound(c: ActiveCfg, created: nat, before: seq<nat>, window: seq<nat>, from: nat, until: nat)
    requires c.ratePps <= NSEC_PER_SEC && from <= until && Within(window, from, until)
    ensures AdmittedIn(c, created, before, window) * (NSEC_PER_SEC - c.ratePps + 1)
         <= c.burst * NSEC_PER_SEC + (until - from) * c.ratePps
  {
    AnyWindowPaid(c, created, before, window, from, until);
    CheapestCost(c, AdmittedIn(c, created, before, window), c.burst * NSEC_PER_SEC + (until - from) * c.ratePps);
  }

  lemma CheapestCost(c: ActiveCfg, admitted: nat, paid: int)
    requires c.ratePps <= NSEC_PER_SEC && admitted * TokenCost(c) <= paid
    ensures admitted * (NSEC_PER_SEC - c.ratePps + 1) <= paid
  {
    MulMono(NSEC_PER_SEC - c.ratePps + 1, TokenCost(c), admitted);
  }

  /** Where no rounding is lost, a window admits at most a burst and the nominal rate times its length. */
  lemma ExactWindowUpperBound(c: ActiveCfg, created: nat, before: seq<nat>, window: seq<nat>, from: nat, until: nat)
    requires Exact(c) && from <= until && Within(window, from, until)
    ensures (AdmittedIn(c, created, before, window) - c.burst) * NSEC_PER_SEC <= (until - from) * c.ratePps
  {
    AnyWindowPaid(c, created, before, window, from, until);
  }
}
