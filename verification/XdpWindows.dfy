/** What a limited source or edge gets past the XDP program during a window of a longer run, from any state of
    the maps: long idle, just created, or left over from another configuration. */
module XdpWindows {
  import opened TokenBucket
  import B = TokenBucketBounds
  import W = TokenBucketWindows
  import opened XdpShield
  import opened XdpRuns

  // ---------------------------------------------------------------- the bucket of one key

  /** What the key can spend in the window; a key without a bucket starts with a full one. */
  function Allowance<K>(m: map<K, WordBucket>, k: K, c: ActiveCfg, from: nat, until: nat): int {
    if k in m then W.Budget(c, m[k], from, until) else W.Cap(c, from, until)
  }

  /** Tokens the key holds in excess of the burst. */
  function Surplus<K>(m: map<K, WordBucket>, k: K, c: ActiveCfg): nat {
    if k in m then W.Excess(c, m[k]) else 0
  }

  lemma AllowanceBounds<K>(m: map<K, WordBucket>, k: K, c: ActiveCfg, from: nat, until: nat)
    requires from <= until
    ensures 0 <= Allowance(m, k, c, from, until)
         <= Surplus(m, k, c) * B.TokenCost(c) + c.burst * NSEC_PER_SEC + (until - from) * c.ratePps
  {
    W.BudgetIsNat(c, if k in m then m[k] else Bucket(from, c.burst), from, until);
    MulMono(0, until - from, c.ratePps);
  }

  /** The first packet of a key takes its token out of a full bucket. */
  lemma CreationSpends(c: ActiveCfg, now: nat, from: nat, until: nat)
    requires from <= now <= until
    ensures W.Budget(c, Create(c, now), from, until) + B.TokenCost(c) <= W.Cap(c, from, until)
  {
    W.PriceOfOneMore(c, c.burst - 1);
    W.CostAtMostNs(c, c.burst);
    MulMono(until - now, until - from, c.ratePps);
  }

  lemma CallSpends<K>(m: map<K, WordBucket>, k: K, c: ActiveCfg, now: u64, from: nat, until: nat)
    requires FitsWord(c) && from <= now <= until
    ensures var (m', ok) := BucketCall(c, m, k, now);
      Allowance(m', k, c, from, until) + (if ok then B.TokenCost(c) else 0) <= Allowance(m, k, c, from, until)
  {
    if k in m {
      WordAgrees(c, m[k], now);
      W.StepSpends(c, m[k], now, from, until);
    } else {
      CreationSpends(c, now, from, until);
    }
  }

  // ---------------------------------------------------------------- runs, for any meter

  /** Packets that pay, at one price each. */
  function Charge(events: seq<Event>, vs: seq<Verdict>, pays: (Packet, Verdict) -> bool, price: nat): int
    requires |events| == |vs|
  {
    if events == [] then 0
    else
      var n := |events| - 1;
      Charge(events[..n], vs[..n], pays, price) + if pays(events[n].arrival.pkt, vs[n]) then price else 0
  }

  /** Every event takes its price out of the measured quantity, in any world. */
  ghost predicate Meters(left: World -> int, pays: (Packet, Verdict) -> bool, price: nat, ncpu: nat, events: seq<Event>)
    requires OnCpus(events, ncpu)
  {
    forall w: World, i | 0 <= i < |events| && |w.cpus| == ncpu ::
      var (w', v) := OnPacket(events[i].pol, w, events[i].arrival);
      left(w') + (if pays(events[i].arrival.pkt, v) then price else 0) <= left(w)
  }

  lemma MetersBefore(left: World -> int, pays: (Packet, Verdict) -> bool, price: nat, ncpu: nat, events: seq<Event>)
    requires OnCpus(events, ncpu) && events != [] && Meters(left, pays, price, ncpu, events)
    ensures Meters(left, pays, price, ncpu, events[..|events| - 1])
  {
  }

  lemma LastMeters(left: World -> int, pays: (Packet, Verdict) -> bool, price: nat, w: World, events: seq<Event>)
    requires OnCpus(events, |w.cpus|) && events != [] && Meters(left, pays, price, |w.cpus|, events)
    ensures var last := events[|events| - 1];
      var (w', v) := OnPacket(last.pol, w, last.arrival);
      left(w') + (if pays(last.arrival.pkt, v) then price else 0) <= left(w)
  {
  }

  /** The last event of a run: the world and the verdict it adds. */
  lemma ReplayLast(w: World, events: seq<Event>)
    requires OnCpus(events, |w.cpus|) && events != []
    ensures var (n, (w', vs)) := (|events| - 1, Replay(w, events));
      && Replay(w, events[..n]).1 == vs[..n]
      && (w', vs[n]) == OnPacket(events[n].pol, Replay(w, events[..n]).0, events[n].arrival)
  {
  }

  lemma {:induction false} RunSpends(
    w: World, events: seq<Event>, left: World -> int, pays: (Packet, Verdict) -> bool, price: nat)
    requires OnCpus(events, |w.cpus|) && Meters(left, pays, price, |w.cpus|, events)
    ensures var (w', vs) := Replay(w, events);
      left(w') + Charge(events, vs, pays, price) <= left(w)
  {
    if events != [] {
      var (n, before) := (|events| - 1, events[..|events| - 1]);
      MetersBefore(left, pays, price, |w.cpus|, events);
      RunSpends(w, before, left, pays, price);
      ReplayLast(w, events);
      LastMeters(left, pays, price, Replay(w, before).0, events);
    }
  }

  function Cost(c: ActiveCfg, paid: bool): nat {
    if paid then B.TokenCost(c) else 0
  }

  lemma PricePlus(c: ActiveCfg, n: nat, paid: bool)
    ensures W.Price(c, n + Bit(paid)) == W.Price(c, n) + Cost(c, paid)
  {
    if paid { W.PriceOfOneMore(c, n); }
  }

  // ---------------------------------------------------------------- a source

  function PassesFrom(s: Src): (Packet, Verdict) -> bool {
    (pkt: Packet, v: Verdict) => pkt.Ip? && pkt.src == s && v == Pass
  }

  lemma {:induction false} ChargeOfPassed(events: seq<Event>, vs: seq<Verdict>, s: Src, c: ActiveCfg)
    requires |events| == |vs|
    ensures Charge(events, vs, PassesFrom(s), B.TokenCost(c)) == W.Price(c, Passed(events, vs, s))
  {
    if events != [] {
      var n := |events| - 1;
      ChargeOfPassed(events[..n], vs[..n], s, c);
      PricePlus(c, Passed(events[..n], vs[..n], s), PassesFrom(s)(events[n].arrival.pkt, vs[n]));
    }
  }

  lemma SourceSpends(pol: Policy, w: World, a: Arrival, s: Src, c: ActiveCfg, from: nat, until: nat)
    requires a.cpu < |w.cpus| && FitsWord(c) && LimitedAt(pol, a, s, c, from, until)
    ensures var (w', v) := OnPacket(pol, w, a);
      Allowance(w'.maps.buckets, s, c, from, until) + Cost(c, PassesFrom(s)(a.pkt, v))
        <= Allowance(w.maps.buckets, s, c, from, until)
  {
    SourceBucketAfter(pol, w, a, s);
    if ReachesLimiter(pol, a.pkt, s) {
      CallSpends(w.maps.buckets, s, c, a.now, from, until);
    } else if a.pkt.Ip? && a.pkt.src == s {
      DecideBuckets(pol, w.maps, a.pkt, a.now);
    }
  }

  lemma SourceRunSpends(w: World, events: seq<Event>, s: Src, c: ActiveCfg, from: nat, until: nat)
    requires OnCpus(events, |w.cpus|) && FitsWord(c) && LimitedBy(events, s, c, from, until)
    ensures var (w', vs) := Replay(w, events);
      Allowance(w'.maps.buckets, s, c, from, until) + W.Price(c, Passed(events, vs, s))
        <= Allowance(w.maps.buckets, s, c, from, until)
  {
    var left := (x: World) => Allowance(x.maps.buckets, s, c, from, until);
    forall x: World, i | 0 <= i < |events| && |x.cpus| == |w.cpus|
      ensures var (x', v) := OnPacket(events[i].pol, x, events[i].arrival);
        left(x') + (if PassesFrom(s)(events[i].arrival.pkt, v) then B.TokenCost(c) else 0) <= left(x)
    {
      SourceSpends(events[i].pol, x, events[i].arrival, s, c, from, until);
    }
    RunSpends(w, events, left, PassesFrom(s), B.TokenCost(c));
    ChargeOfPassed(events, Replay(w, events).1, s, c);
  }

  /** From any state of the program: what a source limited by `c` gets through during a window is paid for by
      the tokens its bucket holds in excess of the burst, one burst, and the length of the window. */
  lemma SourceWindowLimit(w: World, events: seq<Event>, s: Src, c: ActiveCfg, from: nat, until: nat)
    requires OnCpus(events, |w.cpus|) && FitsWord(c) && from <= until && LimitedBy(events, s, c, from, until)
    ensures Passed(events, Replay(w, events).1, s) * B.TokenCost(c)
         <= Surplus(w.maps.buckets, s, c) * B.TokenCost(c) + c.burst * NSEC_PER_SEC + (until - from) * c.ratePps
  {
    SourceRunSpends(w, events, s, c, from, until);
    AllowanceBounds(w.maps.buckets, s, c, from, until);
    AllowanceBounds(Replay(w, events).0.maps.buckets, s, c, from, until);
  }

  /** A source that was limited by `c` before the window as well, at whatever times, has no such excess. */
  lemma NoSurplus(ncpu: nat, earlier: seq<Event>, s: Src, c: ActiveCfg)
    requires OnCpus(earlier, ncpu) && FitsWord(c) && LimitedBy(earlier, s, c, 0, WORD)
    ensures Surplus(Replay(Boot(ncpu), earlier).0.maps.buckets, s, c) == 0
  {
    SourceAccountRun(ncpu, earlier, s, c, 0, WORD);
  }

  /** So in every window of a run under `c` it gets at most a burst and what the window's length pays for. */
  lemma SourceWindowOfRun(
    ncpu: nat, earlier: seq<Event>, window: seq<Event>, s: Src, c: ActiveCfg, from: nat, until: nat)
    requires OnCpus(earlier, ncpu) && OnCpus(window, ncpu) && FitsWord(c) && c.ratePps <= NSEC_PER_SEC
    requires LimitedBy(earlier, s, c, 0, WORD) && from <= until && LimitedBy(window, s, c, from, until)
    ensures Passed(window, Replay(Replay(Boot(ncpu), earlier).0, window).1, s) * (NSEC_PER_SEC - c.ratePps + 1)
         <= c.burst * NSEC_PER_SEC + (until - from) * c.ratePps
  {
    var w := Replay(Boot(ncpu), earlier).0;
    NoSurplus(ncpu, earlier, s, c);
    SourceWindowLimit(w, window, s, c, from, until);
    W.CheapestCost(c, Passed(window, Replay(w, window).1, s), c.burst * NSEC_PER_SEC + (until - from) * c.ratePps);
  }

  // ---------------------------------------------------------------- an edge

  function PassesOn(e: Edge): (Packet, Verdict) -> bool {
    (pkt: Packet, v: Verdict) => OnEdge(pkt, e) && v == Pass
  }

  lemma {:induction false} ChargeOfPassedOn(events: seq<Event>, vs: seq<Verdict>, e: Edge, c: ActiveCfg)
    requires |events| == |vs|
    ensures Charge(events, vs, PassesOn(e), B.TokenCost(c)) == W.Price(c, PassedOn(events, vs, e))
  {
    if events != [] {
      var n := |events| - 1;
      ChargeOfPassedOn(events[..n], vs[..n], e, c);
      PricePlus(c, PassedOn(events[..n], vs[..n], e), PassesOn(e)(events[n].arrival.pkt, vs[n]));
    }
  }

  lemma EdgeSpends(pol: Policy, w: World, a: Arrival, e: Edge, c: ActiveCfg, from: nat, until: nat)
    requires a.cpu < |w.cpus| && FitsWord(c) && EdgeLimitedAt(pol, a, e, c, from, until)
    ensures var (w', v) := OnPacket(pol, w, a);
      Allowance(w'.maps.edges, e, c, from, until) + Cost(c, PassesOn(e)(a.pkt, v))
        <= Allowance(w.maps.edges, e, c, from, until)
  {
    if ReachesEdge(pol, a.pkt, e) {
      EdgeBucketAfter(pol, w, a, e, c);
      CallSpends(w.maps.edges, e, c, a.now, from, until);
    } else {
      OffEdge(pol, w, a, e);
    }
  }

  lemma EdgeRunSpends(w: World, events: seq<Event>, e: Edge, c: ActiveCfg, from: nat, until: nat)
    requires OnCpus(events, |w.cpus|) && FitsWord(c) && EdgeLimitedBy(events, e, c, from, until)
    ensures var (w', vs) := Replay(w, events);
      Allowance(w'.maps.edges, e, c, from, until) + W.Price(c, PassedOn(events, vs, e))
        <= Allowance(w.maps.edges, e, c, from, until)
  {
    var left := (x: World) => Allowance(x.maps.edges, e, c, from, until);
    forall x: World, i | 0 <= i < |events| && |x.cpus| == |w.cpus|
      ensures var (x', v) := OnPacket(events[i].pol, x, events[i].arrival);
        left(x') + (if PassesOn(e)(events[i].arrival.pkt, v) then B.TokenCost(c) else 0) <= left(x)
    {
      EdgeSpends(events[i].pol, x, events[i].arrival, e, c, from, until);
    }
    RunSpends(w, events, left, PassesOn(e), B.TokenCost(c));
    ChargeOfPassedOn(events, Replay(w, events).1, e, c);
  }

  /** The same bound for a limited edge, from any state of the program. */
  lemma EdgeWindowLimit(w: World, events: seq<Event>, e: Edge, c: ActiveCfg, from: nat, until: nat)
    requires OnCpus(events, |w.cpus|) && FitsWord(c) && from <= until && EdgeLimitedBy(events, e, c, from, until)
    ensures PassedOn(events, Replay(w, events).1, e) * B.TokenCost(c)
         <= Surplus(w.maps.edges, e, c) * B.TokenCost(c) + c.burst * NSEC_PER_SEC + (until - from) * c.ratePps
  {
    EdgeRunSpends(w, events, e, c, from, until);
    AllowanceBounds(w.maps.edges, e, c, from, until);
    AllowanceBounds(Replay(w, events).0.maps.edges, e, c, from, until);
  }

  lemma NoEdgeSurplus(ncpu: nat, earlier: seq<Event>, e: Edge, c: ActiveCfg)
    requires OnCpus(earlier, ncpu) && FitsWord(c) && EdgeLimitedBy(earlier, e, c, 0, WORD)
    ensures Surplus(Replay(Boot(ncpu), earlier).0.maps.edges, e, c) == 0
  {
    EdgeAccountRun(ncpu, earlier, e, c, 0, WORD);
  }

  /** And in every window of a run under `c`, at most a burst and what the window's length pays for. */
  lemma EdgeWindowOfRun(
    ncpu: nat, earlier: seq<Event>, window: seq<Event>, e: Edge, c: ActiveCfg, from: nat, until: nat)
    requires OnCpus(earlier, ncpu) && OnCpus(window, ncpu) && FitsWord(c) && c.ratePps <= NSEC_PER_SEC
    requires EdgeLimitedBy(earlier, e, c, 0, WORD) && from <= until && EdgeLimitedBy(window, e, c, from, until)
    ensures PassedOn(window, Replay(Replay(Boot(ncpu), earlier).0, window).1, e) * (NSEC_PER_SEC - c.ratePps + 1)
         <= c.burst * NSEC_PER_SEC + (until - from) * c.ratePps
  {
    var w := Replay(Boot(ncpu), earlier).0;
    NoEdgeSurplus(ncpu, earlier, e, c);
    EdgeWindowLimit(w, window, e, c, from, until);
    W.CheapestCost(c, PassedOn(window, Replay(w, window).1, e), c.burst * NSEC_PER_SEC + (until - from) * c.ratePps);
  }
}
