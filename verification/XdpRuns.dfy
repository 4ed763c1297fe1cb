/** What the XDP program keeps over whole packet sequences. The policy may change before any packet,
    and the kernel may evict any per-source entries at any time. */
module XdpRuns {
  import opened Text
  import opened TokenBucket
  import B = TokenBucketBounds
  import opened XdpShield

  datatype Event = Event(pol: Policy, arrival: Arrival)

  predicate OnCpus(events: seq<Event>, ncpu: nat) {
    forall i | 0 <= i < |events| :: events[i].arrival.cpu < ncpu
  }

  function Replay(w: World, events: seq<Event>): (r: (World, seq<Verdict>))
    requires OnCpus(events, |w.cpus|)
    ensures |r.0.cpus| == |w.cpus| && |r.1| == |events|
  {
    if events == [] then (w, [])
    else
      var (w1, vs) := Replay(w, events[..|events| - 1]);
      var e := events[|events| - 1];
      var (w2, v) := OnPacket(e.pol, w1, e.arrival);
      (w2, vs + [v])
  }

  // ---------------------------------------------------------------- conservation

  ghost predicate TotalsBalance(t: Totals) {
    && t.pkts == t.pass + t.dropAllow + t.dropDeny + t.dropRl
    && t.tcp + t.udp + t.icmp <= t.v4 + t.v6 <= t.pkts
    && t.synack <= t.syn <= t.tcp && t.synack <= t.ack <= t.tcp && t.rst <= t.tcp
    && t.frags <= t.v4 && t.newSources + t.dportChanges <= t.v4 + t.v6
    && t.dropDeny <= t.denyHits && t.dropRl <= t.rlHits
  }

  ghost predicate EntryBalances(s: SrcStats) {
    && s.pkts == s.pass + s.dropAllow + s.dropDeny + s.dropRl
    && 0 < s.pkts && s.tcp + s.udp + s.icmp <= s.pkts
    && s.synack <= s.syn <= s.tcp && s.synack <= s.ack <= s.tcp && s.rst <= s.tcp
    && s.dportChanges < s.pkts
  }

  function HistPkts(h: seq<LenBin>): nat {
    if h == [] then 0 else HistPkts(h[..|h| - 1]) + h[|h| - 1].pkts
  }

  function HistBytes(h: seq<LenBin>): nat {
    if h == [] then 0 else HistBytes(h[..|h| - 1]) + h[|h| - 1].bytes
  }

  ghost predicate CpuBalances(c: PerCpu) {
    && TotalsBalance(c.totals)
    && HistPkts(c.lens) == c.totals.pkts
    && HistBytes(c.lens) == c.totals.bytes
  }

  ghost predicate Balanced(w: World) {
    && (forall i | 0 <= i < |w.cpus| :: CpuBalances(w.cpus[i]))
    && (forall s | s in w.sources :: EntryBalances(w.sources[s]))
    && (forall six: bool :: LivePkts(w.sources, six) <= FamilyPkts(w.cpus, six))
  }

  lemma {:induction false} HistUpdate(h: seq<LenBin>, i: nat, len: nat)
    requires i < |h|
    ensures var h' := h[i := LenBin(h[i].pkts + 1, h[i].bytes + len)];
      HistPkts(h') == HistPkts(h) + 1 && HistBytes(h') == HistBytes(h) + len
  {
    var h' := h[i := LenBin(h[i].pkts + 1, h[i].bytes + len)];
    if i == |h| - 1 {
      assert h'[..|h| - 1] == h[..|h| - 1];
    } else {
      HistUpdate(h[..|h| - 1], i, len);
      assert h'[..|h| - 1] == h[..|h| - 1][i := LenBin(h[i].pkts + 1, h[i].bytes + len)];
    }
  }

  lemma {:induction false} HistZero(h: seq<LenBin>)
    requires forall i | 0 <= i < |h| :: h[i] == LenBin(0, 0)
    ensures HistPkts(h) == 0 && HistBytes(h) == 0
  {
    if h != [] { HistZero(h[..|h| - 1]); }
  }

  // Sums of per-source packet counts over a set of sources.

  ghost function Pick(ks: set<Src>): (k: Src)
    requires ks != {}
    ensures k in ks
  {
    var k :| k in ks; k
  }

  ghost function SumPkts(m: map<Src, SrcStats>, ks: set<Src>): nat
    requires ks <= m.Keys
  {
    if ks == {} then 0 else m[Pick(ks)].pkts + SumPkts(m, ks - {Pick(ks)})
  }

  lemma {:induction false} SumAt(m: map<Src, SrcStats>, ks: set<Src>, x: Src)
    requires ks <= m.Keys && x in ks
    ensures SumPkts(m, ks) == m[x].pkts + SumPkts(m, ks - {x})
    decreases ks
  {
    var k := Pick(ks);
    if k != x {
      SumAt(m, ks - {k}, x);
      SumAt(m, ks - {x}, k);
      assert ks - {k} - {x} == ks - {x} - {k};
    }
  }

  lemma {:induction false} SumFrame(m: map<Src, SrcStats>, n: map<Src, SrcStats>, ks: set<Src>)
    requires ks <= m.Keys && ks <= n.Keys
    requires forall k | k in ks :: m[k] == n[k]
    ensures SumPkts(m, ks) == SumPkts(n, ks)
    decreases ks
  {
    if ks != {} {
      var k :| k in ks;
      SumAt(m, ks, k);
      SumAt(n, ks, k);
      SumFrame(m, n, ks - {k});
    }
  }

  lemma {:induction false} SumSubset(m: map<Src, SrcStats>, js: set<Src>, ks: set<Src>)
    requires js <= ks <= m.Keys
    ensures SumPkts(m, js) <= SumPkts(m, ks)
    decreases ks
  {
    if js != ks {
      var k :| k in ks && k !in js;
      SumAt(m, ks, k);
      SumSubset(m, js, ks - {k});
    }
  }

  ghost function Family(m: map<Src, SrcStats>, six: bool): set<Src> {
    set k | k in m && k.V6? == six
  }

  /** Packets recorded in the live entries of one address family. */
  ghost function LivePkts(m: map<Src, SrcStats>, six: bool): nat {
    SumPkts(m, Family(m, six))
  }

  function FamilyPkts(cpus: seq<PerCpu>, six: bool): nat {
    if cpus == [] then 0
    else
      var t := cpus[|cpus| - 1].totals;
      FamilyPkts(cpus[..|cpus| - 1], six) + if six then t.v6 else t.v4
  }

  lemma {:induction false} FamilyUpdate(cpus: seq<PerCpu>, i: nat, c: PerCpu, six: bool)
    requires i < |cpus|
    ensures
      var (t, u) := (cpus[i].totals, c.totals);
      FamilyPkts(cpus[i := c], six) + (if six then t.v6 else t.v4)
        == FamilyPkts(cpus, six) + (if six then u.v6 else u.v4)
  {
    if i == |cpus| - 1 {
      assert cpus[i := c][..|cpus| - 1] == cpus[..|cpus| - 1];
    } else {
      FamilyUpdate(cpus[..|cpus| - 1], i, c, six);
      assert cpus[i := c][..|cpus| - 1] == cpus[..|cpus| - 1][i := c];
    }
  }

  lemma EvictLive(m: map<Src, SrcStats>, gone: set<Src>, six: bool)
    ensures LivePkts(m - gone, six) <= LivePkts(m, six)
  {
    SumFrame(m - gone, m, Family(m - gone, six));
    SumSubset(m, Family(m - gone, six), Family(m, six));
  }

  /** Recording one packet adds exactly one to the live count of its family. */
  lemma RecordLive(m: map<Src, SrcStats>, s: Src, st: SrcStats, six: bool)
    requires st.pkts == 1 + if s in m then m[s].pkts else 0
    ensures LivePkts(m[s := st], six) == LivePkts(m, six) + Bit(s.V6? == six)
  {
    var n := m[s := st];
    var rest := Family(m, six) - {s};
    assert Family(n, six) - {s} == rest;
    SumFrame(m, n, rest);
    if s.V6? == six {
      SumAt(n, Family(n, six), s);
      if s in m { SumAt(m, Family(m, six), s); } else { assert Family(m, six) == rest; }
    } else {
      assert Family(n, six) == rest && Family(m, six) == rest;
    }
  }

  lemma HeadersKeepOrder(t: Totals, pkt: Packet)
    requires pkt.Ip?
    ensures var u := CountHeaders(t, pkt);
      && u.v4 + u.v6 == t.v4 + t.v6 + 1
      && u.tcp + u.udp + u.icmp <= t.tcp + t.udp + t.icmp + 1
      && u.frags - t.frags <= u.v4 - t.v4
      && u.synack - t.synack <= u.syn - t.syn <= u.tcp - t.tcp
      && u.synack - t.synack <= u.ack - t.ack <= u.tcp - t.tcp
      && u.rst - t.rst <= u.tcp - t.tcp
  {
  }

  lemma TotalsStep(t: Totals, pkt: Packet, d: Decision, moved: bool, isNew: bool)
    requires pkt.Ip? && TotalsBalance(t) && !(moved && isNew)
    requires (d.verdict == DropDeny ==> d.denyHit) && (d.verdict == DropRl ==> d.rlHits > 0)
    ensures TotalsBalance(
              CountSource(CountDecision(CountHeaders(CountBasic(t, pkt.len), pkt), d.verdict, d.allowHit, d.denyHit,
                d.rlHits),
                          moved, isNew))
  {
    HeadersKeepOrder(CountBasic(t, pkt.len), pkt);
  }

  lemma DropsAreHits(pol: Policy, maps: Maps, pkt: Packet, now: u64)
    requires pkt.Ip?
    ensures var d := Decide(pol, maps, pkt, now);
      (d.verdict == DropDeny ==> d.denyHit) && (d.verdict == DropRl ==> d.rlHits > 0)
  {
  }

  lemma TotalsAfter(pol: Policy, w: World, a: Arrival)
    requires a.cpu < |w.cpus| && TotalsBalance(w.cpus[a.cpu].totals)
    ensures var (c, c') := (w.cpus[a.cpu], OnPacket(pol, w, a).0.cpus[a.cpu]);
      && c'.lens == HistAdd(c.lens, a.pkt.len) && TotalsBalance(c'.totals)
      && c'.totals.pkts == c.totals.pkts + 1 && c'.totals.bytes == c.totals.bytes + a.pkt.len
  {
    if a.pkt.Ip? {
      DropsAreHits(pol, w.maps, a.pkt, a.now);
      TotalsStep(w.cpus[a.cpu].totals, a.pkt, Decide(pol, w.maps, a.pkt, a.now),
                 SourceMoved(w.sources - a.evicted, a.pkt), a.pkt.src !in w.sources - a.evicted);
    }
  }

  lemma CpuStep(pol: Policy, w: World, a: Arrival)
    requires a.cpu < |w.cpus| && CpuBalances(w.cpus[a.cpu])
    ensures CpuBalances(OnPacket(pol, w, a).0.cpus[a.cpu])
  {
    TotalsAfter(pol, w, a);
    HistUpdate(w.cpus[a.cpu].lens, BinOf(a.pkt.len), a.pkt.len);
  }

  lemma LiveStep(pol: Policy, w: World, a: Arrival, six: bool)
    requires a.cpu < |w.cpus|
    requires LivePkts(w.sources, six) <= FamilyPkts(w.cpus, six)
    ensures var w' := OnPacket(pol, w, a).0; LivePkts(w'.sources, six) <= FamilyPkts(w'.cpus, six)
  {
    var w' := OnPacket(pol, w, a).0;
    EvictLive(w.sources, a.evicted, six);
    FamilyUpdate(w.cpus, a.cpu, w'.cpus[a.cpu], six);
    if a.pkt.Ip? {
      RecordLive(w.sources - a.evicted, a.pkt.src, w'.sources[a.pkt.src], six);
    }
  }

  lemma EntriesStep(pol: Policy, w: World, a: Arrival)
    requires a.cpu < |w.cpus| && forall s | s in w.sources :: EntryBalances(w.sources[s])
    ensures var w' := OnPacket(pol, w, a).0; forall s | s in w'.sources :: EntryBalances(w'.sources[s])
  {
    if a.pkt.Ip? {
      var d := Decide(pol, w.maps, a.pkt, a.now);
      assert EntryBalances(SourceEntry(w.sources - a.evicted, a.pkt, a.now, d.verdict));
    }
  }

  lemma BalancedStep(pol: Policy, w: World, a: Arrival)
    requires a.cpu < |w.cpus| && Balanced(w)
    ensures Balanced(OnPacket(pol, w, a).0)
  {
    CpuStep(pol, w, a);
    EntriesStep(pol, w, a);
    forall six: bool ensures var w' := OnPacket(pol, w, a).0; LivePkts(w'.sources, six) <= FamilyPkts(w'.cpus, six) {
      LiveStep(pol, w, a, six);
    }
  }

  lemma BlankBalances(c: PerCpu)
    requires c.totals == ZERO_TOTALS && forall i | 0 <= i < LEN_BINS :: c.lens[i] == LenBin(0, 0)
    ensures CpuBalances(c)
  {
    HistZero(c.lens);
  }

  lemma BootBalanced(ncpu: nat)
    ensures Balanced(Boot(ncpu))
  {
    var w := Boot(ncpu);
    forall i | 0 <= i < ncpu ensures CpuBalances(w.cpus[i]) { BlankBalances(w.cpus[i]); }
    forall six: bool ensures LivePkts(w.sources, six) == 0 {
      assert Family(w.sources, six) == {};
    }
  }

  /** Packet conservation: over any packet sequence every packet is passed or charged to exactly one
      drop reason, in the totals and in every live per-source entry; the length histogram sums to the
      totals; and the live entries of a family never record more packets than its counter. */
  lemma {:induction false} PacketConservation(ncpu: nat, events: seq<Event>)
    requires OnCpus(events, ncpu)
    ensures Balanced(Replay(Boot(ncpu), events).0)
  {
    if events == [] {
      BootBalanced(ncpu);
    } else {
      var e := events[|events| - 1];
      PacketConservation(ncpu, events[..|events| - 1]);
      BalancedStep(e.pol, Replay(Boot(ncpu), events[..|events| - 1]).0, e.arrival);
    }
  }

  // ---------------------------------------------------------------- counters tally verdicts

  /** How many of the packets seen on `cpu` got verdict `v`. */
  function Tally(events: seq<Event>, vs: seq<Verdict>, cpu: nat, v: Verdict): nat
    requires |events| == |vs|
  {
    if events == [] then 0
    else
      var n := |events| - 1;
      Tally(events[..n], vs[..n], cpu, v) + Bit(events[n].arrival.cpu == cpu && vs[n] == v)
  }

  function VerdictTotal(t: Totals, v: Verdict): nat {
    match v case Pass => t.pass case DropAllow => t.dropAllow case DropDeny => t.dropDeny case DropRl => t.dropRl
  }

  lemma VerdictCounted(pol: Policy, w: World, a: Arrival, cpu: nat, v: Verdict)
    requires a.cpu < |w.cpus| && cpu < |w.cpus|
    ensures var (w', got) := OnPacket(pol, w, a);
      VerdictTotal(w'.cpus[cpu].totals, v) == VerdictTotal(w.cpus[cpu].totals, v) + Bit(a.cpu == cpu && got == v)
  {
  }

  /** Every verdict counter of every CPU equals the number of packets given that verdict there. */
  lemma {:induction false} CountersTallyVerdicts(ncpu: nat, events: seq<Event>, cpu: nat, v: Verdict)
    requires OnCpus(events, ncpu) && cpu < ncpu
    ensures var (w, vs) := Replay(Boot(ncpu), events);
      VerdictTotal(w.cpus[cpu].totals, v) == Tally(events, vs, cpu, v)
  {
    if events != [] {
      var n := |events| - 1;
      CountersTallyVerdicts(ncpu, events[..n], cpu, v);
      var (w1, vs1) := Replay(Boot(ncpu), events[..n]);
      assert Replay(Boot(ncpu), events).1[..n] == vs1;
      VerdictCounted(events[n].pol, w1, events[n].arrival, cpu, v);
    }
  }

  // ---------------------------------------------------------------- what a pass means

  /** A passed IP packet satisfied every list the policy enforces; in allow mode that includes the
      edge allow list, whatever the state of the maps (default deny). */
  lemma PassedLists(pol: Policy, w: World, a: Arrival)
    requires a.cpu < |w.cpus| && a.pkt.Ip? && OnPacket(pol, w, a).1 == Pass
    ensures a.pkt.src !in pol.deny && (pol.enforceAllow ==> a.pkt.src in pol.allow)
    ensures EdgeChecked(pol, a.pkt) ==>
              var e := Edge(a.pkt.src.addr4, a.pkt.Dport(), a.pkt.proto);
              if pol.edgeMode == 2 then e in pol.edgeAllow else e !in pol.edgeDeny
  {
  }

  predicate ReachesLimiter(pol: Policy, pkt: Packet, s: Src) {
    pkt.Ip? && pkt.src == s && (pol.enforceAllow ==> s in pol.allow) && s !in pol.deny
  }

  /** A packet that the lists drop costs no tokens, and no packet touches another source's bucket. A
      packet that reaches the limiter makes exactly one call of its source's bucket, whatever the edge
      stage decides afterwards, and passes only if that call admits it. */
  lemma SourceBucketAfter(pol: Policy, w: World, a: Arrival, s: Src)
    requires a.cpu < |w.cpus|
    ensures
      var (w', v) := OnPacket(pol, w, a);
      if !ReachesLimiter(pol, a.pkt, s) || SelectRl(pol, s).None? then
        (s in w'.maps.buckets <==> s in w.maps.buckets)
        && (s in w.maps.buckets ==> w'.maps.buckets[s] == w.maps.buckets[s])
      else
        var (m, ok) := BucketCall(SelectRl(pol, s).value, w.maps.buckets, s, a.now);
        w'.maps.buckets == m && (v == Pass ==> ok)
  {
    if a.pkt.Ip? { DecideBuckets(pol, w.maps, a.pkt, a.now); }
  }

  lemma DecideBuckets(pol: Policy, maps: Maps, pkt: Packet, now: u64)
    requires pkt.Ip?
    ensures
      var d := Decide(pol, maps, pkt, now);
      if !ReachesLimiter(pol, pkt, pkt.src) then d.maps.buckets == maps.buckets && d.verdict != Pass
      else if SelectRl(pol, pkt.src).None? then d.maps.buckets == maps.buckets
      else
        var (m, ok) := BucketCall(SelectRl(pol, pkt.src).value, maps.buckets, pkt.src, now);
        d.maps.buckets == m && (d.verdict == Pass ==> ok)
  {
  }

  // ---------------------------------------------------------------- the source rate limit, end to end

  /** Packets of `s` that passed. */
  function Passed(events: seq<Event>, vs: seq<Verdict>, s: Src): nat
    requires |events| == |vs|
  {
    if events == [] then 0
    else
      var n := |events| - 1;
      Passed(events[..n], vs[..n], s) + Bit(events[n].arrival.pkt.Ip? && events[n].arrival.pkt.src == s
        && vs[n] == Pass)
  }

  /** Whatever brings `s` to its limiter is limited by `c` and stamped within the span. */
  predicate LimitedAt(pol: Policy, a: Arrival, s: Src, c: ActiveCfg, from: nat, until: nat) {
    ReachesLimiter(pol, a.pkt, s) ==> SelectRl(pol, s) == Some(c) && from <= a.now <= until
  }

  ghost predicate LimitedBy(events: seq<Event>, s: Src, c: ActiveCfg, from: nat, until: nat) {
    forall i | 0 <= i < |events| :: LimitedAt(events[i].pol, events[i].arrival, s, c, from, until)
  }

  /** Either no packet of `k` has reached its limiter yet, or its bucket balances an account that covers
      every packet of `k` that passed. */
  ghost predicate Account<K>(m: map<K, WordBucket>, k: K, c: ActiveCfg, passed: nat, from: nat, until: nat) {
    if k in m then
      exists created: nat, admitted: nat ::
        from <= created && passed <= admitted && B.Accounted(c, created, m[k], admitted, until)
    else
      passed == 0
  }

  lemma SourceAccountStep(pol: Policy, w: World, a: Arrival, s: Src, c: ActiveCfg, passed: nat, from: nat, until: nat)
    requires a.cpu < |w.cpus| && FitsWord(c) && LimitedAt(pol, a, s, c, from, until)
    requires Account(w.maps.buckets, s, c, passed, from, until)
    ensures
      var (w', v) := OnPacket(pol, w, a);
      Account(w'.maps.buckets, s, c, passed + Bit(a.pkt.Ip? && a.pkt.src == s && v == Pass), from, until)
  {
    SourceBucketAfter(pol, w, a, s);
    if ReachesLimiter(pol, a.pkt, s) {
      LimiterAccountStep(w.maps.buckets, s, c, a.now, passed, from, until);
    } else if a.pkt.Ip? && a.pkt.src == s {
      DecideBuckets(pol, w.maps, a.pkt, a.now);
    }
  }

  lemma LimiterAccountStep<K>(m: map<K, WordBucket>, k: K, c: ActiveCfg, now: u64, passed: nat, from: nat, until: nat)
    requires FitsWord(c) && from <= now <= until
    requires Account(m, k, c, passed, from, until)
    ensures var (m', ok) := BucketCall(c, m, k, now);
      Account(m', k, c, passed, from, until) && (ok ==> Account(m', k, c, passed + 1, from, until))
  {
    var (m', ok) := BucketCall(c, m, k, now);
    if k in m {
      var created, admitted :| from <= created && passed <= admitted && B.Accounted(c, created, m[k], admitted, until);
      WordAgrees(c, m[k], now);
      B.StepAccounted(c, created, m[k], admitted, until, now);
      assert B.Accounted(c, created, m'[k], if ok then admitted + 1 else admitted, until);
    } else {
      B.CreateAccounted(c, now, until);
      assert B.Accounted(c, now, m'[k], 1, until);
    }
  }

  lemma {:induction false} SourceAccountRun(ncpu: nat, events: seq<Event>, s: Src, c: ActiveCfg, from: nat, until: nat)
    requires OnCpus(events, ncpu) && FitsWord(c) && LimitedBy(events, s, c, from, until)
    ensures var (w, vs) := Replay(Boot(ncpu), events);
      Account(w.maps.buckets, s, c, Passed(events, vs, s), from, until)
  {
    if events != [] {
      var n := |events| - 1;
      SourceAccountRun(ncpu, events[..n], s, c, from, until);
      var (w1, vs1) := Replay(Boot(ncpu), events[..n]);
      assert Replay(Boot(ncpu), events).1[..n] == vs1;
      SourceAccountStep(events[n].pol, w1, events[n].arrival, s, c, Passed(events[..n], vs1, s), from, until);
    }
  }

  /** End to end: a source limited by `c` whenever it reaches its limiter gets at most its burst and what the
      elapsed time pays for past the program, however its packets are spread over CPUs, mixed with other
      traffic and stamped, and whatever the lists and other sources' policies and clocks do meanwhile. */
  lemma SourceRateLimit(ncpu: nat, events: seq<Event>, s: Src, c: ActiveCfg, from: nat, until: nat)
    requires OnCpus(events, ncpu) && FitsWord(c) && c.ratePps <= NSEC_PER_SEC
    requires from <= until && LimitedBy(events, s, c, from, until)
    ensures (Passed(events, Replay(Boot(ncpu), events).1, s) - c.burst) * (NSEC_PER_SEC - c.ratePps + 1)
         <= (until - from) * c.ratePps
  {
    SourceAccountRun(ncpu, events, s, c, from, until);
    var (w, vs) := Replay(Boot(ncpu), events);
    AccountLimits(w.maps.buckets, s, c, Passed(events, vs, s), from, until);
  }

  lemma AccountLimits<K>(m: map<K, WordBucket>, k: K, c: ActiveCfg, passed: nat, from: nat, until: nat)
    requires c.ratePps <= NSEC_PER_SEC && from <= until && Account(m, k, c, passed, from, until)
    ensures (passed - c.burst) * (NSEC_PER_SEC - c.ratePps + 1) <= (until - from) * c.ratePps
  {
    if k in m {
      var created, admitted :| from <= created && passed <= admitted && B.Accounted(c, created, m[k], admitted, until);
      B.AccountBounds(c, created, m[k], admitted, until);
      CostOfPassed(c, passed, admitted, until - created, until - from);
    } else {
      WithinBurst(c, NSEC_PER_SEC - c.ratePps + 1, until - from);
    }
  }

  lemma WithinBurst(c: ActiveCfg, cost: nat, span: nat)
    ensures (0 - c.burst) * cost <= span * c.ratePps
  {
    MulMono(0, c.burst, cost);
    MulMono(0, span, c.ratePps);
  }

  lemma CostOfPassed(c: ActiveCfg, passed: nat, admitted: nat, span: nat, longer: nat)
    requires c.ratePps <= NSEC_PER_SEC && passed <= admitted && span <= longer
    requires (admitted - c.burst) * B.TokenCost(c) <= span * c.ratePps
    ensures (passed - c.burst) * (NSEC_PER_SEC - c.ratePps + 1) <= longer * c.ratePps
  {
    var u := NSEC_PER_SEC - c.ratePps + 1;
    B.CheaperCost(admitted - c.burst, B.TokenCost(c), u, span * c.ratePps);
    MulMono(span, longer, c.ratePps);
    MulMono(passed, admitted, u);
    assert (admitted - c.burst) * u - (passed - c.burst) * u == (admitted - passed) * u;
  }

  // ---------------------------------------------------------------- the edge rate limit, end to end

  predicate OnEdge(pkt: Packet, e: Edge) {
    pkt.Ip? && pkt.src.V4? && e == Edge(pkt.src.addr4, pkt.Dport(), pkt.proto)
  }

  /** Edge checks are on, and the edge is limited by `c`. */
  predicate EdgeLimited(pol: Policy, e: Edge, c: ActiveCfg) {
    pol.edgeMode != 0 && e.dport != 0 && e in pol.edgeRl && pol.edgeRl[e] == c
  }

  /** A packet on the edge either is dropped before the edge limiter, or makes exactly one call of the
      edge's bucket and passes only if admitted; no other packet touches that bucket. */
  lemma EdgeBucketAfter(pol: Policy, w: World, a: Arrival, e: Edge, c: ActiveCfg)
    requires a.cpu < |w.cpus| && EdgeLimited(pol, e, c)
    ensures
      var (w', v) := OnPacket(pol, w, a);
      var (m, ok) := BucketCall(c, w.maps.edges, e, a.now);
      || (OnEdge(a.pkt, e) && w'.maps.edges == m && (v == Pass ==> ok))
      || ((OnEdge(a.pkt, e) ==> v != Pass)
          && (e in w'.maps.edges <==> e in w.maps.edges)
          && (e in w.maps.edges ==> w'.maps.edges[e] == w.maps.edges[e]))
  {
    if a.pkt.Ip? {
      if OnEdge(a.pkt, e) {
        DecideOnEdge(pol, w.maps, a.pkt, a.now, e, c);
      } else {
        DecideOffEdge(pol, w.maps, a.pkt, a.now, e);
      }
    }
  }

  lemma DecideOnEdge(pol: Policy, maps: Maps, pkt: Packet, now: u64, e: Edge, c: ActiveCfg)
    requires OnEdge(pkt, e) && EdgeLimited(pol, e, c)
    ensures
      var (d, (m, ok)) := (Decide(pol, maps, pkt, now), BucketCall(c, maps.edges, e, now));
      || (d.maps.edges == m && (d.verdict == Pass ==> ok))
      || (d.verdict != Pass && d.maps.edges == maps.edges)
  {
  }

  lemma DecideOffEdge(pol: Policy, maps: Maps, pkt: Packet, now: u64, e: Edge)
    requires pkt.Ip? && !OnEdge(pkt, e)
    ensures var d := Decide(pol, maps, pkt, now);
      && (e in d.maps.edges <==> e in maps.edges)
      && (e in maps.edges ==> d.maps.edges[e] == maps.edges[e])
  {
  }

  /** Packets on the edge that passed. */
  function PassedOn(events: seq<Event>, vs: seq<Verdict>, e: Edge): nat
    requires |events| == |vs|
  {
    if events == [] then 0
    else
      var n := |events| - 1;
      PassedOn(events[..n], vs[..n], e) + Bit(OnEdge(events[n].arrival.pkt, e) && vs[n] == Pass)
  }

  /** A packet on the edge that the source lists let through. */
  predicate ReachesEdge(pol: Policy, pkt: Packet, e: Edge) {
    OnEdge(pkt, e) && ReachesLimiter(pol, pkt, pkt.src)
  }

  /** Whatever reaches the edge finds it limited by `c` and is stamped within the span. */
  predicate EdgeLimitedAt(pol: Policy, a: Arrival, e: Edge, c: ActiveCfg, from: nat, until: nat) {
    ReachesEdge(pol, a.pkt, e) ==> EdgeLimited(pol, e, c) && from <= a.now <= until
  }

  ghost predicate EdgeLimitedBy(events: seq<Event>, e: Edge, c: ActiveCfg, from: nat, until: nat) {
    forall i | 0 <= i < |events| :: EdgeLimitedAt(events[i].pol, events[i].arrival, e, c, from, until)
  }

  /** Whatever does not reach the edge leaves its bucket alone, and does not pass on it. */
  lemma OffEdge(pol: Policy, w: World, a: Arrival, e: Edge)
    requires a.cpu < |w.cpus| && !ReachesEdge(pol, a.pkt, e)
    ensures
      var (w', v) := OnPacket(pol, w, a);
      && (OnEdge(a.pkt, e) ==> v != Pass)
      && (e in w'.maps.edges <==> e in w.maps.edges)
      && (e in w.maps.edges ==> w'.maps.edges[e] == w.maps.edges[e])
  {
    if a.pkt.Ip? && !OnEdge(a.pkt, e) { DecideOffEdge(pol, w.maps, a.pkt, a.now, e); }
  }

  lemma EdgeAccountStep(pol: Policy, w: World, a: Arrival, e: Edge, c: ActiveCfg, passed: nat, from: nat, until: nat)
    requires a.cpu < |w.cpus| && FitsWord(c) && EdgeLimitedAt(pol, a, e, c, from, until)
    requires Account(w.maps.edges, e, c, passed, from, until)
    ensures
      var (w', v) := OnPacket(pol, w, a);
      Account(w'.maps.edges, e, c, passed + Bit(OnEdge(a.pkt, e) && v == Pass), from, until)
  {
    if ReachesEdge(pol, a.pkt, e) {
      EdgeBucketAfter(pol, w, a, e, c);
      LimiterAccountStep(w.maps.edges, e, c, a.now, passed, from, until);
    } else {
      OffEdge(pol, w, a, e);
    }
  }

  lemma {:induction false} EdgeAccountRun(ncpu: nat, events: seq<Event>, e: Edge, c: ActiveCfg, from: nat, until: nat)
    requires OnCpus(events, ncpu) && FitsWord(c) && EdgeLimitedBy(events, e, c, from, until)
    ensures var (w, vs) := Replay(Boot(ncpu), events);
      Account(w.maps.edges, e, c, PassedOn(events, vs, e), from, until)
  {
    if events != [] {
      var n := |events| - 1;
      EdgeAccountRun(ncpu, events[..n], e, c, from, until);
      var (w1, vs1) := Replay(Boot(ncpu), events[..n]);
      assert Replay(Boot(ncpu), events).1[..n] == vs1;
      EdgeAccountStep(events[n].pol, w1, events[n].arrival, e, c, PassedOn(events[..n], vs1, e), from, until);
    }
  }

  /** The same bound for an edge limited by `c` whenever a packet reaches it: whatever source limits, lists and
      other traffic do meanwhile. */
  lemma EdgeRateLimit(ncpu: nat, events: seq<Event>, e: Edge, c: ActiveCfg, from: nat, until: nat)
    requires OnCpus(events, ncpu) && FitsWord(c) && c.ratePps <= NSEC_PER_SEC
    requires from <= until && EdgeLimitedBy(events, e, c, from, until)
    ensures (PassedOn(events, Replay(Boot(ncpu), events).1, e) - c.burst) * (NSEC_PER_SEC - c.ratePps + 1)
         <= (until - from) * c.ratePps
  {
    EdgeAccountRun(ncpu, events, e, c, from, until);
    var (w, vs) := Replay(Boot(ncpu), events);
    AccountLimits(w.maps.edges, e, c, PassedOn(events, vs, e), from, until);
  }
}
