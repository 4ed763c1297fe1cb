/** The counters of the XDP program, read off the packets: what each packet adds to its CPU's totals, and what
    a source's entry says about the packets since the kernel last evicted it. */
module XdpCounters {
  import opened Text
  import opened TokenBucket
  import opened XdpShield
  import opened XdpRuns
  import opened XdpVerdicts

  function One(b: bool): nat { if b then 1 else 0 }

  /** The destination port, 0 without one. */
  function PortOf(pkt: Packet): nat {
    if pkt.Ip? && pkt.l4.Tcp? then pkt.l4.tcpDport else if pkt.Ip? && pkt.l4.Udp? then pkt.l4.udpDport else 0
  }

  predicate IsProto(pkt: Packet, proto: nat) {
    pkt.Ip? && pkt.proto == proto
  }

  predicate IsPing(pkt: Packet) {
    pkt.Ip? && ((pkt.src.V4? && pkt.proto == 1) || (pkt.src.V6? && pkt.proto == 58))
  }

  /** A TCP packet whose header was there to be read. */
  predicate HasFlags(pkt: Packet) {
    IsProto(pkt, 6) && pkt.l4.Tcp?
  }

  // ---------------------------------------------------------------- the totals of one packet

  /** What a packet adds for itself and its headers. */
  predicate HeadersCounted(t: Totals, t': Totals, pkt: Packet) {
    && t'.pkts == t.pkts + 1 && t'.bytes == t.bytes + pkt.len
    && t'.v4 == t.v4 + One(pkt.Ip? && pkt.src.V4?) && t'.v6 == t.v6 + One(pkt.Ip? && pkt.src.V6?)
    && t'.tcp == t.tcp + One(IsProto(pkt, 6)) && t'.udp == t.udp + One(IsProto(pkt, 17))
    && t'.icmp == t.icmp + One(IsPing(pkt)) && t'.frags == t.frags + One(pkt.Ip? && pkt.src.V4? && pkt.frag)
    && t'.syn == t.syn + One(HasFlags(pkt) && pkt.l4.syn) && t'.rst == t.rst + One(HasFlags(pkt) && pkt.l4.rst)
    && t'.ack == t.ack + One(HasFlags(pkt) && pkt.l4.ack)
    && t'.synack == t.synack + One(HasFlags(pkt) && pkt.l4.syn && pkt.l4.ack)
  }

  /** And for its verdict. */
  predicate VerdictCounted(t: Totals, t': Totals, v: Verdict) {
    && t'.pass == t.pass + One(v == Pass) && t'.dropAllow == t.dropAllow + One(v == DropAllow)
    && t'.dropDeny == t.dropDeny + One(v == DropDeny) && t'.dropRl == t.dropRl + One(v == DropRl)
  }

  lemma HeadersSlot(t: Totals, pkt: Packet)
    requires pkt.Ip?
    ensures var t' := CountHeaders(CountBasic(t, pkt.len), pkt);
      && HeadersCounted(t, t', pkt)
      && (t'.pass, t'.dropAllow, t'.dropDeny, t'.dropRl) == (t.pass, t.dropAllow, t.dropDeny, t.dropRl)
      && (t'.dportChanges, t'.newSources, t'.allowHits, t'.denyHits, t'.rlHits)
         == (t.dportChanges, t.newSources, t.allowHits, t.denyHits, t.rlHits)
  {
  }

  lemma DecisionSlot(t: Totals, d: Decision)
    ensures var t' := CountDecision(t, d.verdict, d.allowHit, d.denyHit, d.rlHits);
      && VerdictCounted(t, t', d.verdict)
      && t'.allowHits == t.allowHits + One(d.allowHit) && t'.denyHits == t.denyHits + One(d.denyHit)
      && t'.rlHits == t.rlHits + d.rlHits && SameHeaders(t, t')
      && (t'.dportChanges, t'.newSources) == (t.dportChanges, t.newSources)
  {
  }

  predicate SameHeaders(t: Totals, t': Totals) {
    && (t'.pkts, t'.bytes, t'.v4, t'.v6, t'.frags) == (t.pkts, t.bytes, t.v4, t.v6, t.frags)
    && (t'.tcp, t'.udp, t'.icmp, t'.syn, t'.synack, t'.rst, t'.ack)
       == (t.tcp, t.udp, t.icmp, t.syn, t.synack, t.rst, t.ack)
  }

  lemma SlotCounted(t: Totals, pkt: Packet, d: Decision, moved: bool, isNew: bool)
    requires pkt.Ip?
    ensures var t' := CountSource(CountDecision(CountHeaders(CountBasic(t, pkt.len), pkt), d.verdict, d.allowHit,
                                                d.denyHit, d.rlHits), moved, isNew);
      && HeadersCounted(t, t', pkt) && VerdictCounted(t, t', d.verdict)
      && t'.newSources == t.newSources + One(isNew) && t'.dportChanges == t.dportChanges + One(moved)
      && t'.allowHits == t.allowHits + One(d.allowHit) && t'.denyHits == t.denyHits + One(d.denyHit)
      && t'.rlHits == t.rlHits + d.rlHits
  {
    HeadersSlot(t, pkt);
    DecisionSlot(CountHeaders(CountBasic(t, pkt.len), pkt), d);
  }

  /** The slot after an IP packet, as the program fills it. */
  lemma SlotAfter(pol: Policy, w: World, a: Arrival)
    requires a.cpu < |w.cpus| && a.pkt.Ip?
    ensures
      var ((w', v), d, known) := (OnPacket(pol, w, a), Decide(pol, w.maps, a.pkt, a.now), w.sources - a.evicted);
      && v == d.verdict
      && w'.cpus[a.cpu].totals == CountSource(
           CountDecision(CountHeaders(CountBasic(w.cpus[a.cpu].totals, a.pkt.len), a.pkt), d.verdict, d.allowHit,
                         d.denyHit, d.rlHits), SourceMoved(known, a.pkt), a.pkt.src !in known)
  {
  }

  /** The packet, its headers and its verdict are counted on the CPU it arrived on. */
  lemma PacketCounted(pol: Policy, w: World, a: Arrival)
    requires a.cpu < |w.cpus|
    ensures
      var (w', v) := OnPacket(pol, w, a);
      && HeadersCounted(w.cpus[a.cpu].totals, w'.cpus[a.cpu].totals, a.pkt)
      && VerdictCounted(w.cpus[a.cpu].totals, w'.cpus[a.cpu].totals, v)
      && |w'.cpus| == |w.cpus| && forall i | 0 <= i < |w.cpus| && i != a.cpu :: w'.cpus[i] == w.cpus[i]
  {
    if a.pkt.Ip? {
      var (d, known) := (Decide(pol, w.maps, a.pkt, a.now), w.sources - a.evicted);
      SlotAfter(pol, w, a);
      SlotCounted(w.cpus[a.cpu].totals, a.pkt, d, SourceMoved(known, a.pkt), a.pkt.src !in known);
    }
  }

  /** So are the lists it met. */
  lemma ListsCounted(pol: Policy, w: World, a: Arrival)
    requires a.cpu < |w.cpus|
    ensures
      var ((w', v), pkt) := (OnPacket(pol, w, a), a.pkt);
      var (t, t') := (w.cpus[a.cpu].totals, w'.cpus[a.cpu].totals);
      && t'.allowHits == t.allowHits + One(pkt.Ip? && pol.enforceAllow && pkt.src in pol.allow)
      && t'.denyHits == t.denyHits + One(v == DropDeny)
  {
    if a.pkt.Ip? { HitsOfDecision(pol, w, a); }
  }

  lemma HitsOfDecision(pol: Policy, w: World, a: Arrival)
    requires a.pkt.Ip?
    ensures var d := Decide(pol, w.maps, a.pkt, a.now);
      && d.allowHit == (pol.enforceAllow && a.pkt.src in pol.allow)
      && d.denyHit == (d.verdict == DropDeny)
  {
  }

  /** What is new about its source. */
  lemma NewsCounted(pol: Policy, w: World, a: Arrival)
    requires a.cpu < |w.cpus|
    ensures
      var (pkt, known) := (a.pkt, w.sources - a.evicted);
      var (t, t') := (w.cpus[a.cpu].totals, OnPacket(pol, w, a).0.cpus[a.cpu].totals);
      && t'.newSources == t.newSources + One(pkt.Ip? && pkt.src !in known)
      && t'.dportChanges == t.dportChanges
           + One(pkt.Ip? && pkt.src in known && PortOf(pkt) != 0 && PortOf(pkt) != known[pkt.src].lastDport)
  {
    if a.pkt.Ip? {
      var (d, known) := (Decide(pol, w.maps, a.pkt, a.now), w.sources - a.evicted);
      SlotAfter(pol, w, a);
      SlotCounted(w.cpus[a.cpu].totals, a.pkt, d, SourceMoved(known, a.pkt), a.pkt.src !in known);
    }
  }

  /** And the limiters it met: its source's, and its edge's. */
  lemma LimitersCounted(pol: Policy, w: World, a: Arrival)
    requires a.cpu < |w.cpus|
    ensures
      var (t, t') := (w.cpus[a.cpu].totals, OnPacket(pol, w, a).0.cpus[a.cpu].totals);
      t'.rlHits == t.rlHits
        + One(a.pkt.Ip? && ListsAdmit(pol, a.pkt.src) && Limited(pol, a.pkt.src))
        + One(PastSource(pol, w, a) && exists e ::
                FacesEdge(pol, a.pkt, e) && EdgeListAdmits(pol, e) && EdgeLimits(pol, e))
  {
    if a.pkt.Ip? {
      DecideIs(pol, w, a);
      LimitersMet(pol, w, a);
    }
  }

  lemma LimitersMet(pol: Policy, w: World, a: Arrival)
    requires a.pkt.Ip?
    ensures var (d, e) := (Decide(pol, w.maps, a.pkt, a.now), EdgeOf(a.pkt));
      d.rlHits == One(ListsAdmit(pol, a.pkt.src) && Limited(pol, a.pkt.src))
        + One(PastSource(pol, w, a) && EdgeChecked(pol, a.pkt) && EdgeListAdmits(pol, e) && EdgeLimits(pol, e))
  {
    SelectIs(pol, a.pkt.src);
    if Limited(pol, a.pkt.src) { CallIs(InForce(pol, a.pkt.src), w.maps.buckets, a.pkt.src, a.now); }
  }

  /** Length bins: the first nine between these limits, the last from the greatest on, the others unused. */
  const LIMITS: seq<nat> := [0, 64, 128, 256, 512, 1024, 1518, 2048, 4096, 8192]

  predicate InBin(i: nat, len: nat) {
    if i == 15 then len >= 8192 else i < 9 && LIMITS[i] <= len < LIMITS[i + 1]
  }

  /** Its length is counted in its bin and nowhere else. */
  lemma LengthCounted(pol: Policy, w: World, a: Arrival, i: nat)
    requires a.cpu < |w.cpus| && i < LEN_BINS
    ensures
      var (h, h') := (w.cpus[a.cpu].lens, OnPacket(pol, w, a).0.cpus[a.cpu].lens);
      && h'[i].pkts == h[i].pkts + One(InBin(i, a.pkt.len))
      && h'[i].bytes == h[i].bytes + (if InBin(i, a.pkt.len) then a.pkt.len else 0)
  {
    LensAfter(pol, w, a);
    BinIs(a.pkt.len, i);
  }

  lemma LensAfter(pol: Policy, w: World, a: Arrival)
    requires a.cpu < |w.cpus|
    ensures OnPacket(pol, w, a).0.cpus[a.cpu].lens == HistAdd(w.cpus[a.cpu].lens, a.pkt.len)
  {
  }

  lemma BinIs(len: nat, i: nat)
    ensures BinOf(len) == i <==> InBin(i, len)
  {
  }

  // ---------------------------------------------------------------- a source's entry, over its life

  datatype Seen = Seen(a: Arrival, v: Verdict)

  /** The packets of a source since it was last evicted. */
  function Life(events: seq<Event>, vs: seq<Verdict>, s: Src): seq<Seen>
    requires |events| == |vs|
  {
    if events == [] then []
    else
      var n := |events| - 1;
      var a := events[n].arrival;
      var before := if s in a.evicted then [] else Life(events[..n], vs[..n], s);
      if a.pkt.Ip? && a.pkt.src == s then before + [Seen(a, vs[n])] else before
  }

  function Bytes(life: seq<Seen>): nat {
    if life == [] then 0 else Bytes(life[..|life| - 1]) + life[|life| - 1].a.pkt.len
  }

  function Tally(life: seq<Seen>, holds: Seen -> bool): nat {
    if life == [] then 0 else Tally(life[..|life| - 1], holds) + One(holds(life[|life| - 1]))
  }

  /** The last port other than 0. */
  function LastPort(life: seq<Seen>): nat {
    if life == [] then 0
    else if PortOf(life[|life| - 1].a.pkt) != 0 then PortOf(life[|life| - 1].a.pkt) else LastPort(life[..|life| - 1])
  }

  /** How often a later packet went to another port. */
  function PortMoves(life: seq<Seen>): nat {
    if |life| <= 1 then 0
    else
      var (before, port) := (life[..|life| - 1], PortOf(life[|life| - 1].a.pkt));
      PortMoves(before) + One(port != 0 && port != LastPort(before))
  }

  /** The entry counts these packets, by protocol and flags. */
  ghost predicate CountsPackets(e: SrcStats, life: seq<Seen>) {
    && e.pkts == |life| && e.bytes == Bytes(life)
    && e.tcp == Tally(life, (x: Seen) => IsProto(x.a.pkt, 6)) && e.udp == Tally(life, (x: Seen) => IsProto(x.a.pkt, 17))
    && e.icmp == Tally(life, (x: Seen) => IsPing(x.a.pkt))
    && e.syn == Tally(life, (x: Seen) => HasFlags(x.a.pkt) && x.a.pkt.l4.syn)
    && e.rst == Tally(life, (x: Seen) => HasFlags(x.a.pkt) && x.a.pkt.l4.rst)
    && e.ack == Tally(life, (x: Seen) => HasFlags(x.a.pkt) && x.a.pkt.l4.ack)
    && e.synack == Tally(life, (x: Seen) => HasFlags(x.a.pkt) && x.a.pkt.l4.syn && x.a.pkt.l4.ack)
  }

  /** And by verdict, with their times and ports. */
  ghost predicate CountsVerdicts(e: SrcStats, life: seq<Seen>) {
    && life != []
    && e.pass == Tally(life, (x: Seen) => x.v == Pass) && e.dropAllow == Tally(life, (x: Seen) => x.v == DropAllow)
    && e.dropDeny == Tally(life, (x: Seen) => x.v == DropDeny) && e.dropRl == Tally(life, (x: Seen) => x.v == DropRl)
    && e.firstSeen == life[0].a.now && e.lastSeen == life[|life| - 1].a.now
    && e.lastDport == LastPort(life) && e.dportChanges == PortMoves(life)
  }

  ghost predicate Tells(sources: map<Src, SrcStats>, s: Src, life: seq<Seen>) {
    (s in sources <==> life != [])
    && (s in sources ==> CountsPackets(sources[s], life) && CountsVerdicts(sources[s], life))
  }

  lemma TallyOneMore(life: seq<Seen>, x: Seen, holds: Seen -> bool)
    ensures Tally(life + [x], holds) == Tally(life, holds) + One(holds(x))
  {
    assert (life + [x])[..|life|] == life;
  }

  lemma PacketsOneMore(sources: map<Src, SrcStats>, life: seq<Seen>, x: Seen)
    requires x.a.pkt.Ip? && Tells(sources, x.a.pkt.src, life)
    ensures CountsPackets(SourceEntry(sources, x.a.pkt, x.a.now, x.v), life + [x])
  {
    TallyOneMore(life, x, (x: Seen) => IsProto(x.a.pkt, 6));
    TallyOneMore(life, x, (x: Seen) => IsProto(x.a.pkt, 17));
    TallyOneMore(life, x, (x: Seen) => IsPing(x.a.pkt));
    TallyOneMore(life, x, (x: Seen) => HasFlags(x.a.pkt) && x.a.pkt.l4.syn);
    TallyOneMore(life, x, (x: Seen) => HasFlags(x.a.pkt) && x.a.pkt.l4.rst);
    TallyOneMore(life, x, (x: Seen) => HasFlags(x.a.pkt) && x.a.pkt.l4.ack);
    TallyOneMore(life, x, (x: Seen) => HasFlags(x.a.pkt) && x.a.pkt.l4.syn && x.a.pkt.l4.ack);
    assert (life + [x])[..|life|] == life;
  }

  lemma VerdictsOneMore(sources: map<Src, SrcStats>, life: seq<Seen>, x: Seen)
    requires x.a.pkt.Ip? && Tells(sources, x.a.pkt.src, life)
    ensures CountsVerdicts(SourceEntry(sources, x.a.pkt, x.a.now, x.v), life + [x])
  {
    TallyOneMore(life, x, (x: Seen) => x.v == Pass);
    TallyOneMore(life, x, (x: Seen) => x.v == DropAllow);
    TallyOneMore(life, x, (x: Seen) => x.v == DropDeny);
    TallyOneMore(life, x, (x: Seen) => x.v == DropRl);
    assert (life + [x])[..|life|] == life;
  }

  lemma SourcesAfter(pol: Policy, w: World, a: Arrival, s: Src)
    requires a.cpu < |w.cpus|
    ensures var ((w', v), known) := (OnPacket(pol, w, a), w.sources - a.evicted);
      if a.pkt.Ip? && a.pkt.src == s then s in w'.sources && w'.sources[s] == SourceEntry(known, a.pkt, a.now, v)
      else (s in w'.sources <==> s in known) && (s in known ==> w'.sources[s] == known[s])
  {
  }

  lemma LifeStep(pol: Policy, w: World, a: Arrival, s: Src, life: seq<Seen>)
    requires a.cpu < |w.cpus| && Tells(w.sources, s, life)
    ensures var ((w', v), before) := (OnPacket(pol, w, a), if s in a.evicted then [] else life);
      Tells(w'.sources, s, if a.pkt.Ip? && a.pkt.src == s then before + [Seen(a, v)] else before)
  {
    SourcesAfter(pol, w, a, s);
    var (before, known) := (if s in a.evicted then [] else life, w.sources - a.evicted);
    assert Tells(known, s, before);
    if a.pkt.Ip? && a.pkt.src == s {
      PacketsOneMore(known, before, Seen(a, OnPacket(pol, w, a).1));
      VerdictsOneMore(known, before, Seen(a, OnPacket(pol, w, a).1));
    }
  }

  /** In every run a source has an entry exactly when it sent a packet since its last eviction, and the entry
      counts exactly those packets. */
  lemma {:induction false} EntryTells(ncpu: nat, events: seq<Event>, s: Src)
    requires OnCpus(events, ncpu)
    ensures var (w, vs) := Replay(Boot(ncpu), events);
      Tells(w.sources, s, Life(events, vs, s))
  {
    if events != [] {
      var (n, before) := (|events| - 1, events[..|events| - 1]);
      EntryTells(ncpu, before, s);
      var (w1, vs1) := Replay(Boot(ncpu), before);
      assert Replay(Boot(ncpu), events).1[..n] == vs1;
      LifeStep(events[n].pol, w1, events[n].arrival, s, Life(before, vs1, s));
    }
  }
}
