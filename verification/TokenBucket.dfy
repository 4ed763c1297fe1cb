/** The per-source and per-edge token bucket of the XDP program.

    The bucket is modelled twice: `WordStep` computes on 64-bit words exactly as the C code does,
    wrapping after every operation, and `Step` computes the same expressions on unbounded integers.
    `OverflowFreeIff` says for which configurations the two agree. */
module TokenBucket {

  const NSEC_PER_SEC: nat := 1_000_000_000
  const WORD: nat := 0x1_0000_0000_0000_0000

  type u64 = x: int | 0 <= x < WORD

  /** A rate-limit configuration the program treats as active: both fields are nonzero. */
  datatype RlCfg = RlCfg(ratePps: u64, burst: u64)
  {
    predicate Active() {
      ratePps != 0 && burst != 0
    }
  }

  type ActiveCfg = c: RlCfg | c.Active() witness RlCfg(1, 1)

  /** The persistent part of a bucket. Integer buckets range over all naturals. */
  datatype Bucket = Bucket(lastNs: nat, tokens: nat)
  {
    predicate IsWord() {
      lastNs < WORD && tokens < WORD
    }
  }

  // ---------------------------------------------------------------- unbounded integers

  /** Nanoseconds after which `missing` tokens have certainly been earned: a rounded-up quotient. */
  function NeedNs(rate: nat, missing: nat): nat
    requires rate > 0
  {
    (missing * NSEC_PER_SEC + rate - 1) / rate
  }

  /** Whole tokens earned in `delta` nanoseconds, rounded down. */
  function EarnedTokens(rate: nat, delta: nat): nat {
    delta * rate / NSEC_PER_SEC
  }

  /** Nanoseconds charged for `add` tokens, rounded down. */
  function AdvanceNs(rate: nat, add: nat): nat
    requires rate > 0
  {
    add * NSEC_PER_SEC / rate
  }

  function Refill(c: ActiveCfg, b: Bucket, now: nat): Bucket {
    var delta := if now > b.lastNs then now - b.lastNs else 0;
    if b.tokens < c.burst then
      var missing := c.burst - b.tokens;
      if delta >= NeedNs(c.ratePps, missing) then
        Bucket(now, c.burst)
      else
        var add := EarnedTokens(c.ratePps, delta);
        if add > 0 then
          var grown := b.tokens + add;
          Bucket(b.lastNs + AdvanceNs(c.ratePps, add), if grown > c.burst then c.burst else grown)
        else
          b
    else
      b
  }

  function Take(b: Bucket): (Bucket, bool) {
    if b.tokens == 0 then (b, false) else (b.(tokens := b.tokens - 1), true)
  }

  function Step(c: ActiveCfg, b: Bucket, now: nat): (Bucket, bool) {
    Take(Refill(c, b, now))
  }

  /** A bucket is created by the first packet it lets through (the lookup-miss path). */
  function Create(c: ActiveCfg, now: nat): Bucket {
    Bucket(now, c.burst - 1)
  }

  // ---------------------------------------------------------------- 64-bit words

  function Wrap(x: int): u64 {
    x % WORD
  }

  function Quotient(x: u64, y: u64): u64
    requires y > 0
  {
    DivBounds(x, y);
    x / y
  }

  function WordNeedNs(rate: u64, missing: u64): u64
    requires rate > 0
  {
    Quotient(Wrap(Wrap(Wrap(missing * NSEC_PER_SEC) + rate) - 1), rate)
  }

  function WordEarned(rate: u64, delta: u64): u64 {
    Quotient(Wrap(delta * rate), NSEC_PER_SEC)
  }

  function WordAdvance(rate: u64, add: u64): u64
    requires rate > 0
  {
    Quotient(Wrap(add * NSEC_PER_SEC), rate)
  }

  /** Less time than a full refill needs: the tokens it earned, and the mark moved by what they cost. */
  function WordPartial(c: ActiveCfg, b: Bucket, add: u64): (r: Bucket)
    requires b.IsWord()
    ensures r.IsWord()
  {
    if add > 0 then
      var grown := Wrap(b.tokens + add);
      Bucket(Wrap(b.lastNs + WordAdvance(c.ratePps, add)), if grown > c.burst then c.burst else grown)
    else
      b
  }

  function WordRefill(c: ActiveCfg, b: Bucket, now: u64): (r: Bucket)
    requires b.IsWord()
    ensures r.IsWord()
  {
    var delta: u64 := if now > b.lastNs then now - b.lastNs else 0;
    if b.tokens < c.burst then
      var missing: u64 := c.burst - b.tokens;
      if delta >= WordNeedNs(c.ratePps, missing) then
        Bucket(now, c.burst)
      else
        WordPartial(c, b, WordEarned(c.ratePps, delta))
    else
      b
  }

  function WordStep(c: ActiveCfg, b: Bucket, now: u64): (r: (Bucket, bool))
    requires b.IsWord()
    ensures r.0.IsWord()
  {
    Take(WordRefill(c, b, now))
  }

  /** The in-kernel state object, updated in place under its spin lock. */
  class RlState {
    var lastNs: u64
    var tokens: u64

    function Value(): (b: Bucket)
      reads this
      ensures b.IsWord()
    {
      Bucket(lastNs, tokens)
    }

    constructor (now: u64, initTokens: u64)
      ensures Value() == Bucket(now, initTokens)
    {
      lastNs := now;
      tokens := initTokens;
    }

    /** The tokens at hand once the elapsed time is converted; only the clock mark is written yet. */
    method Earn(c: ActiveCfg, now: u64) returns (have: u64)
      modifies this`lastNs
      ensures Bucket(lastNs, have) == WordRefill(c, old(Value()), now)
    {
      have := tokens;
      var delta: u64 := if now > lastNs then now - lastNs else 0;
      if have < c.burst {
        var missing: u64 := c.burst - have;
        if delta >= WordNeedNs(c.ratePps, missing) {
          have := c.burst;
          lastNs := now;
        } else {
          have := EarnPart(c, WordEarned(c.ratePps, delta));
        }
      }
    }

    method EarnPart(c: ActiveCfg, add: u64) returns (have: u64)
      modifies this`lastNs
      ensures Bucket(lastNs, have) == WordPartial(c, old(Value()), add)
    {
      have := tokens;
      if add > 0 {
        have := Wrap(have + add);
        if have > c.burst { have := c.burst; }
        lastNs := Wrap(lastNs + WordAdvance(c.ratePps, add));
      }
    }

    /** One locked bucket call. An inactive configuration always admits and touches nothing. */
    method AllowAndUpdate(cfg: RlCfg, now: u64) returns (allowed: bool)
      modifies this
      ensures !cfg.Active() ==> allowed && Value() == old(Value())
      ensures cfg.Active() ==> (Value(), allowed) == WordStep(cfg, old(Value()), now)
    {
      if cfg.ratePps == 0 || cfg.burst == 0 {
        return true;
      }
      var have := Earn(cfg, now);
      if have == 0 {
        tokens := 0;
        return false;
      }
      tokens := have - 1;
      return true;
    }
  }

  // ---------------------------------------------------------------- arithmetic of the refill

  /** q = a / b is the largest multiple: q*b <= a < (q+1)*b. */
  lemma DivBounds(a: nat, b: nat)
    requires b > 0
    ensures 0 <= a / b
    ensures (a / b) * b <= a < (a / b) * b + b
    ensures a / b <= a
  {
    assert a == (a / b) * b + a % b;
    MulAtLeast(a / b, b);
  }

  lemma MulAtLeast(x: nat, k: nat)
    requires k > 0
    ensures x <= x * k
  {
  }

  lemma MulMono(x: nat, y: nat, k: nat)
    requires x <= y
    ensures x * k <= y * k && k * x <= k * y
  {
  }

  lemma MulMonoStrict(x: nat, y: nat, k: nat)
    requires x < y && 0 < k
    ensures x * k < y * k
  {
  }

  /** q is below a rounded-up quotient exactly when q*b is below the dividend. */
  lemma {:induction false} CeilDiv(q: nat, a: nat, b: nat)
    requires b > 0
    ensures q < (a + b - 1) / b <==> q * b < a
  {
    var c := (a + b - 1) / b;
    DivBounds(a + b - 1, b);
    if q < c {
      MulMono(q + 1, c, b);
    } else {
      MulMono(c, q, b);
    }
  }

  /** The three cases of a refill with what the roundings guarantee about each of them. */
  ghost predicate PartialRefill(c: ActiveCfg, b: Bucket, now: nat, add: nat, adv: nat) {
    && b.tokens < c.burst
    && b.lastNs < now
    && 0 < add < c.burst - b.tokens
    && add * NSEC_PER_SEC <= (now - b.lastNs) * c.ratePps
    && (now - b.lastNs) * c.ratePps < add * NSEC_PER_SEC + NSEC_PER_SEC
    && (now - b.lastNs) * c.ratePps < (c.burst - b.tokens) * NSEC_PER_SEC
    && adv <= now - b.lastNs
    && adv * c.ratePps <= add * NSEC_PER_SEC < adv * c.ratePps + c.ratePps
  }

  lemma RefillCases(c: ActiveCfg, b: Bucket, now: nat)
    ensures
      var r := Refill(c, b, now);
      var adv := r.lastNs - b.lastNs;
      || r == b
      || (&& b.tokens < c.burst && b.lastNs < now && r == Bucket(now, c.burst)
          && (c.burst - b.tokens) * NSEC_PER_SEC <= (now - b.lastNs) * c.ratePps)
      || (&& b.lastNs <= r.lastNs && b.tokens <= r.tokens
          && PartialRefill(c, b, now, r.tokens - b.tokens, adv))
  {
    var delta := if now > b.lastNs then now - b.lastNs else 0;
    if b.tokens < c.burst {
      var missing := c.burst - b.tokens;
      CeilDiv(delta, missing * NSEC_PER_SEC, c.ratePps);
      if delta >= NeedNs(c.ratePps, missing) {
        MulAtLeast(missing, NSEC_PER_SEC);
      } else {
        var dr := delta * c.ratePps;
        var add := dr / NSEC_PER_SEC;
        DivBounds(dr, NSEC_PER_SEC);
        if add > 0 {
          DivBounds(add * NSEC_PER_SEC, c.ratePps);
          var adv := add * NSEC_PER_SEC / c.ratePps;
          if adv > delta { MulMonoStrict(delta, adv, c.ratePps); }
        }
      }
    }
  }

  /** After a refill that leaves the bucket empty, less than one token's worth of time is owed. */
  lemma EmptyAfterRefill(c: ActiveCfg, b: Bucket, now: nat)
    requires Refill(c, b, now).tokens == 0
    ensures Refill(c, b, now) == b && b.tokens == 0
    ensures now > b.lastNs ==> (now - b.lastNs) * c.ratePps < NSEC_PER_SEC
  {
    RefillCases(c, b, now);
    DivBounds((if now > b.lastNs then now - b.lastNs else 0) * c.ratePps, NSEC_PER_SEC);
  }

  // ---------------------------------------------------------------- overflow freedom, exactly

  /** The configuration bound under which no intermediate product of the C code can wrap. */
  predicate FitsWord(c: ActiveCfg) {
    c.burst * NSEC_PER_SEC + c.ratePps - 1 < WORD
  }

  ghost predicate AgreesEverywhere(c: ActiveCfg) {
    forall b: Bucket, now: u64 | b.IsWord() :: WordStep(c, b, now) == Step(c, b, now)
  }

  lemma WrapSmall(x: nat)
    requires x < WORD
    ensures Wrap(x) == x
  {
  }

  lemma WordNeedAgrees(c: ActiveCfg, missing: u64)
    requires FitsWord(c) && 0 < missing <= c.burst
    ensures WordNeedNs(c.ratePps, missing) == NeedNs(c.ratePps, missing)
  {
    MulMono(missing, c.burst, NSEC_PER_SEC);
    WrapSmall(missing * NSEC_PER_SEC);
    if missing * NSEC_PER_SEC + c.ratePps < WORD {
      WrapSmall(missing * NSEC_PER_SEC + c.ratePps);
    }
    WrapSmall(missing * NSEC_PER_SEC + c.ratePps - 1);
  }

  lemma WordAgrees(c: ActiveCfg, b: Bucket, now: u64)
    requires FitsWord(c) && b.IsWord()
    ensures WordRefill(c, b, now) == Refill(c, b, now)
  {
    var delta := if now > b.lastNs then now - b.lastNs else 0;
    if b.tokens < c.burst {
      var missing := c.burst - b.tokens;
      WordNeedAgrees(c, missing);
      if delta < NeedNs(c.ratePps, missing) {
        WordPartialAgrees(c, b, now, delta, EarnedTokens(c.ratePps, delta));
      }
    }
  }

  /** `delta * rate` is formed only below `missing * 10^9`, so no product of the partial refill wraps. */
  lemma WordPartialAgrees(c: ActiveCfg, b: Bucket, now: u64, delta: nat, add: nat)
    requires FitsWord(c) && b.IsWord() && b.tokens < c.burst
    requires delta == if now > b.lastNs then now - b.lastNs else 0
    requires delta < NeedNs(c.ratePps, c.burst - b.tokens)
    requires add == EarnedTokens(c.ratePps, delta)
    ensures add < WORD && WordEarned(c.ratePps, delta) == add
    ensures Wrap(b.tokens + add) == b.tokens + add
    ensures WordAdvance(c.ratePps, add) == AdvanceNs(c.ratePps, add)
    ensures Wrap(b.lastNs + WordAdvance(c.ratePps, add)) == b.lastNs + AdvanceNs(c.ratePps, add)
  {
    var missing := c.burst - b.tokens;
    var dr := delta * c.ratePps;
    MulMono(missing, c.burst, NSEC_PER_SEC);
    CeilDiv(delta, missing * NSEC_PER_SEC, c.ratePps);
    DivBounds(dr, NSEC_PER_SEC);
    DivBounds(add * NSEC_PER_SEC, c.ratePps);
    var adv := add * NSEC_PER_SEC / c.ratePps;
    if adv > delta { MulMonoStrict(delta, adv, c.ratePps); }
    WrapSmall(dr);
    WrapSmall(add * NSEC_PER_SEC);
    WrapSmall(b.tokens + add);
    WrapSmall(b.lastNs + adv);
  }

  /** Beyond the bound the wrapped `need_ns` comes out too small. */
  lemma WordNeedTooSmall(c: ActiveCfg) returns (now: u64)
    requires !FitsWord(c)
    ensures now == WordNeedNs(c.ratePps, c.burst)
    ensures now * c.ratePps < c.burst * NSEC_PER_SEC
  {
    var full := c.burst * NSEC_PER_SEC + c.ratePps - 1;
    now := WordNeedNs(c.ratePps, c.burst);
    var word: u64 := Wrap(Wrap(Wrap(c.burst * NSEC_PER_SEC) + c.ratePps) - 1);
    WrapNested(c.burst * NSEC_PER_SEC, c.ratePps);
    assert word <= full - WORD;
    DivBounds(word, c.ratePps);
  }

  lemma WrapNested(x: nat, y: nat)
    requires y > 0
    ensures Wrap(Wrap(Wrap(x) + y) - 1) == Wrap(x + y - 1)
    ensures x + y - 1 >= WORD ==> Wrap(x + y - 1) <= x + y - 1 - WORD
  {
    WrapShift(x + y, -(x / WORD));
    assert Wrap(x) + y == x + y + -(x / WORD) * WORD;
    WrapShift(x + y - 1, -((x + y) / WORD));
    assert Wrap(x + y) - 1 == x + y - 1 + -((x + y) / WORD) * WORD;
  }

  lemma WrapShift(x: int, k: int)
    ensures Wrap(x + k * WORD) == Wrap(x)
  {
  }

  /** So an empty bucket refills for free at a clock where no time has been earned. */
  lemma WordDiffers(c: ActiveCfg)
    requires !FitsWord(c)
    ensures exists now: u64 :: WordStep(c, Bucket(0, 0), now) != Step(c, Bucket(0, 0), now)
  {
    var now := WordNeedTooSmall(c);
    CeilDiv(now, c.burst * NSEC_PER_SEC, c.ratePps);
    RefillCases(c, Bucket(0, 0), now);
    assert WordStep(c, Bucket(0, 0), now) != Step(c, Bucket(0, 0), now);
  }

  /** The refill shortcut is overflow-safe for exactly the configurations that fit the word. */
  lemma OverflowFreeIff(c: ActiveCfg)
    ensures AgreesEverywhere(c) <==> FitsWord(c)
  {
    if FitsWord(c) {
      forall b: Bucket, now: u64 | b.IsWord() ensures WordStep(c, b, now) == Step(c, b, now) {
        WordAgrees(c, b, now);
      }
    } else {
      WordDiffers(c);
      assert Bucket(0, 0).IsWord();
    }
  }

  /** One call never moves the clock mark back, nor past the mark and `now`, and leaves room below
      the burst; a partial refill stays below the burst, so the clamp in the code never fires. */
  lemma StepKeepsRange(c: ActiveCfg, b: Bucket, now: nat)
    requires b.tokens < c.burst
    ensures b.lastNs <= Step(c, b, now).0.lastNs <= (if now > b.lastNs then now else b.lastNs)
    ensures Step(c, b, now).0.tokens < c.burst
    ensures now > b.lastNs && now - b.lastNs < NeedNs(c.ratePps, c.burst - b.tokens)
            ==> b.tokens + EarnedTokens(c.ratePps, now - b.lastNs) < c.burst
  {
    RefillCases(c, b, now);
    if now > b.lastNs {
      CeilDiv(now - b.lastNs, (c.burst - b.tokens) * NSEC_PER_SEC, c.ratePps);
      DivBounds((now - b.lastNs) * c.ratePps, NSEC_PER_SEC);
    }
  }

  /** What a call finds and leaves. A full bucket, or less than a token's worth of time, changes nothing; time for
      all that is missing fills the bucket and moves the mark to the clock; in between the whole tokens that time
      is worth are added, and the mark moves by the whole nanoseconds they cost. Whatever is then there pays one
      token for the packet, and an empty bucket refuses it. */
  lemma CallExactly(c: ActiveCfg, b: Bucket, now: nat)
    ensures
      var (r, allowed) := Step(c, b, now);
      var earned := if now > b.lastNs then (now - b.lastNs) * c.ratePps else 0;
      var have := if allowed then r.tokens + 1 else 0;
      && (!allowed ==> r.tokens == 0)
      && if b.tokens >= c.burst || earned < 1_000_000_000 then have == b.tokens && r.lastNs == b.lastNs
         else if earned >= (c.burst - b.tokens) * 1_000_000_000 then have == c.burst && r.lastNs == now
         else
           && (have - b.tokens) * 1_000_000_000 <= earned < (have - b.tokens) * 1_000_000_000 + 1_000_000_000
           && (r.lastNs - b.lastNs) * c.ratePps <= (have - b.tokens) * 1_000_000_000
           && (have - b.tokens) * 1_000_000_000 < (r.lastNs - b.lastNs) * c.ratePps + c.ratePps
  {
    RefillExactly(c, b, now);
  }

  lemma RefillExactly(c: ActiveCfg, b: Bucket, now: nat)
    ensures
      var (r, earned) := (Refill(c, b, now), if now > b.lastNs then (now - b.lastNs) * c.ratePps else 0);
      if b.tokens >= c.burst || earned < NSEC_PER_SEC then r == b
      else if earned >= (c.burst - b.tokens) * NSEC_PER_SEC then r == Bucket(now, c.burst)
      else
        && (r.tokens - b.tokens) * NSEC_PER_SEC <= earned < (r.tokens - b.tokens) * NSEC_PER_SEC + NSEC_PER_SEC
        && (r.lastNs - b.lastNs) * c.ratePps <= (r.tokens - b.tokens) * NSEC_PER_SEC
        && (r.tokens - b.tokens) * NSEC_PER_SEC < (r.lastNs - b.lastNs) * c.ratePps + c.ratePps
  {
    var delta := if now > b.lastNs then now - b.lastNs else 0;
    var earned := delta * c.ratePps;
    RefillCases(c, b, now);
    if b.tokens < c.burst {
      CeilDiv(delta, (c.burst - b.tokens) * NSEC_PER_SEC, c.ratePps);
      DivBounds(earned, NSEC_PER_SEC);
      MulAtLeast(NSEC_PER_SEC, c.burst - b.tokens);
      DivBounds(EarnedTokens(c.ratePps, delta) * NSEC_PER_SEC, c.ratePps);
    }
  }

  /** A call on words, from the refill time, the tokens earned and what they cost. */
  predicate WordCall(c: ActiveCfg, b: Bucket, now: u64, r: Bucket, allowed: bool, need: int, earned: int, cost: int) {
    var elapsed := if now > b.lastNs then now - b.lastNs else 0;
    var have := if allowed then r.tokens + 1 else 0;
    && (!allowed ==> r.tokens == 0)
    && if b.tokens >= c.burst then have == b.tokens && r.lastNs == b.lastNs
       else if elapsed >= need then have == c.burst && r.lastNs == now
       else if earned == 0 then have == b.tokens && r.lastNs == b.lastNs
       else
         var sum := (b.tokens + earned) % 0x1_0000_0000_0000_0000;
         && have == (if sum > c.burst then c.burst else sum)
         && r.lastNs == (b.lastNs + cost) % 0x1_0000_0000_0000_0000
  }

  /** Each product is reduced modulo 2^64, and the refill time takes a single reduction; the sum of tokens and the new
      mark are reduced, too. */
  lemma WordCallExactly(c: ActiveCfg, b: Bucket, now: u64)
    requires b.IsWord()
    ensures
      var elapsed := if now > b.lastNs then now - b.lastNs else 0;
      var need := ((c.burst - b.tokens) * 1_000_000_000 + c.ratePps - 1) % 0x1_0000_0000_0000_0000 / c.ratePps;
      var earned := elapsed * c.ratePps % 0x1_0000_0000_0000_0000 / 1_000_000_000;
      var cost := earned * 1_000_000_000 % 0x1_0000_0000_0000_0000 / c.ratePps;
      WordCall(c, b, now, WordStep(c, b, now).0, WordStep(c, b, now).1, need, earned, cost)
  {
    var elapsed: u64 := if now > b.lastNs then now - b.lastNs else 0;
    var need := ((c.burst - b.tokens) * 1_000_000_000 + c.ratePps - 1) % 0x1_0000_0000_0000_0000 / c.ratePps;
    var earned := WordEarned(c.ratePps, elapsed);
    if b.tokens < c.burst { WordNeedReduced(c.ratePps, c.burst - b.tokens); }
    WordCallFrom(c, b, now, need, earned, WordAdvance(c.ratePps, earned));
  }

  lemma WordCallFrom(c: ActiveCfg, b: Bucket, now: u64, need: int, earned: u64, cost: u64)
    requires b.IsWord() && earned == WordEarned(c.ratePps, if now > b.lastNs then now - b.lastNs else 0)
    requires cost == WordAdvance(c.ratePps, earned)
    requires b.tokens < c.burst ==> need == WordNeedNs(c.ratePps, c.burst - b.tokens)
    ensures WordCall(c, b, now, WordStep(c, b, now).0, WordStep(c, b, now).1, need, earned, cost)
  {
    WordPartialSays(c, b, earned, cost);
    WordRefillSays(c, b, now, need, WordPartial(c, b, earned));
    WordTakes(c, b, now, WordRefill(c, b, now));
  }

  lemma WordPartialSays(c: ActiveCfg, b: Bucket, add: u64, cost: u64)
    requires b.IsWord() && cost == WordAdvance(c.ratePps, add)
    ensures var (r, sum) := (WordPartial(c, b, add), (b.tokens + add) % 0x1_0000_0000_0000_0000);
      if add == 0 then r == b
      else
        && r.tokens == (if sum > c.burst then c.burst else sum)
        && r.lastNs == (b.lastNs + cost) % 0x1_0000_0000_0000_0000
  {
  }

  lemma WordRefillSays(c: ActiveCfg, b: Bucket, now: u64, need: int, partial: Bucket)
    requires b.IsWord() && (b.tokens < c.burst ==> need == WordNeedNs(c.ratePps, c.burst - b.tokens))
    requires partial == WordPartial(c, b, WordEarned(c.ratePps, if now > b.lastNs then now - b.lastNs else 0))
    ensures WordRefill(c, b, now) == if b.tokens >= c.burst then b
      else if (if now > b.lastNs then now - b.lastNs else 0) >= need then Bucket(now, c.burst)
      else partial
  {
  }

  lemma WordTakes(c: ActiveCfg, b: Bucket, now: u64, full: Bucket)
    requires b.IsWord() && full == WordRefill(c, b, now)
    ensures var (r, allowed) := WordStep(c, b, now);
      && (allowed <==> full.tokens > 0) && r.lastNs == full.lastNs
      && r.tokens == if allowed then full.tokens - 1 else 0
  {
  }

  lemma WordNeedReduced(rate: u64, missing: u64)
    requires rate > 0
    ensures WordNeedNs(rate, missing) == (missing * NSEC_PER_SEC + rate - 1) % WORD / rate
  {
    WrapNested(missing * NSEC_PER_SEC, rate);
  }
}
