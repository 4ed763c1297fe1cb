/** The XDP program around the token buckets: verdict, counters and per-source statistics.

    A packet arrives already parsed. IPv4 and IPv6 run the same code over separate maps; here one map
    per purpose is keyed by `Src`, whose two constructors keep the address families apart. */
module XdpShield {
  import opened Text
  import opened TokenBucket

  // ---------------------------------------------------------------- packets and policy

  datatype Src = V4(addr4: nat) | V6(addr6: nat)

  datatype Edge = Edge(src: nat, dport: nat, proto: nat)

  /** `Absent`: no TCP/UDP header, or one cut short by the end of the packet. */
  datatype L4 = Absent | Tcp(tcpDport: nat, syn: bool, rst: bool, ack: bool) | Udp(udpDport: nat)

  datatype Packet =
    | Opaque(len: nat)  // truncated link or IP header, wrong IP version, or not IP at all
    | Ip(len: nat, src: Src, proto: nat, frag: bool, l4: L4)
  {
    function Dport(): nat {
      if Opaque? then 0 else match l4 case Absent => 0 case Tcp(d, _, _, _) => d case Udp(d) => d
    }
    predicate IsTcp() { Ip? && proto == 6 }
    predicate IsUdp() { Ip? && proto == 17 }
    predicate IsIcmp() { Ip? && proto == (if src.V4? then 1 else 58) }
    predicate Syn() { IsTcp() && l4.Tcp? && l4.syn }
    predicate Rst() { IsTcp() && l4.Tcp? && l4.rst }
    predicate Ack() { IsTcp() && l4.Tcp? && l4.ack }
    predicate SynAck() { Syn() && Ack() }
  }

  /** Everything user space writes. The two allow lists are prefix tries; here, the addresses they match. */
  datatype Policy = Policy(
    enforceAllow: bool, allow: set<Src>, deny: set<Src>,
    rlDefault: RlCfg, rlOverride: map<Src, RlCfg>,
    edgeMode: nat, edgeAllow: set<Edge>, edgeDeny: set<Edge>, edgeRl: map<Edge, RlCfg>)

  /** An active override wins over the default; an inactive one is ignored. */
  function SelectRl(pol: Policy, src: Src): Option<RlCfg> {
    if src in pol.rlOverride && pol.rlOverride[src].Active() then Some(pol.rlOverride[src])
    else if pol.rlDefault.Active() then Some(pol.rlDefault)
    else None
  }

  // ---------------------------------------------------------------- state

  datatype Verdict = Pass | DropAllow | DropDeny | DropRl

  datatype Totals = Totals(
    pkts: nat, bytes: nat, pass: nat, dropAllow: nat, dropDeny: nat, dropRl: nat,
    v4: nat, v6: nat, tcp: nat, udp: nat, icmp: nat,
    syn: nat, synack: nat, rst: nat, ack: nat, frags: nat,
    dportChanges: nat, newSources: nat, allowHits: nat, denyHits: nat, rlHits: nat)

  datatype LenBin = LenBin(pkts: nat, bytes: nat)

  const LEN_BINS: nat := 16

  type LenHist = h: seq<LenBin> | |h| == LEN_BINS witness seq(LEN_BINS, _ => LenBin(0, 0))

  datatype PerCpu = PerCpu(totals: Totals, lens: LenHist)

  datatype SrcStats = SrcStats(
    pkts: nat, bytes: nat, tcp: nat, udp: nat, icmp: nat, syn: nat, synack: nat, rst: nat, ack: nat,
    pass: nat, dropAllow: nat, dropDeny: nat, dropRl: nat,
    firstSeen: nat, lastSeen: nat, lastDport: nat, dportChanges: nat)

  type WordBucket = b: Bucket | b.IsWord() witness Bucket(0, 0)

  datatype Maps = Maps(buckets: map<Src, WordBucket>, edges: map<Edge, WordBucket>)

  datatype World = World(cpus: seq<PerCpu>, maps: Maps, sources: map<Src, SrcStats>)

  const ZERO_TOTALS: Totals := Totals(0, 0, 0, 0, 0, 0, 0, 0, 0, 0, 0, 0, 0, 0, 0, 0, 0, 0, 0, 0, 0)

  function Boot(ncpu: nat): World {
    World(seq(ncpu, _ => PerCpu(ZERO_TOTALS, seq(LEN_BINS, _ => LenBin(0, 0)))), Maps(map[], map[]), map[])
  }

  function Bit(b: bool): nat { if b then 1 else 0 }

  // ---------------------------------------------------------------- verdict

  /** Hits are the three list/limiter counters a packet can bump on its way to a verdict. */
  datatype Decision = Decision(verdict: Verdict, maps: Maps, allowHit: bool, denyHit: bool, rlHits: nat)

  /** One bucket call by key: the first call creates the bucket and consumes a token from it. */
  function BucketCall<K>(c: ActiveCfg, m: map<K, WordBucket>, k: K, now: u64): (map<K, WordBucket>, bool) {
    if k in m then
      var (b, ok) := WordStep(c, m[k], now);
      (m[k := b], ok)
    else
      (m[k := Create(c, now)], true)
  }

  function SourceStage(pol: Policy, maps: Maps, src: Src, now: u64): (Maps, bool) {
    match SelectRl(pol, src)
    case None => (maps, true)
    case Some(c) =>
      var (m, ok) := BucketCall(c, maps.buckets, src, now);
      (maps.(buckets := m), ok)
  }

  predicate EdgeDenies(pol: Policy, e: Edge) {
    if pol.edgeMode == 2 then e !in pol.edgeAllow else e in pol.edgeDeny
  }

  function EdgeStage(pol: Policy, maps: Maps, e: Edge, now: u64): (Maps, bool) {
    if e in pol.edgeRl && pol.edgeRl[e].Active() then
      var (m, ok) := BucketCall(pol.edgeRl[e], maps.edges, e, now);
      (maps.(edges := m), ok)
    else
      (maps, true)
  }

  predicate EdgeChecked(pol: Policy, pkt: Packet) {
    pkt.Ip? && pkt.src.V4? && pkt.Dport() != 0 && pol.edgeMode != 0
  }

  function Decide(pol: Policy, maps: Maps, pkt: Packet, now: u64): Decision
    requires pkt.Ip?
  {
    if pol.enforceAllow && pkt.src !in pol.allow then
      Decision(DropAllow, maps, false, false, 0)
    else if pkt.src in pol.deny then
      Decision(DropDeny, maps, pol.enforceAllow, true, 0)
    else
      var limited := Bit(SelectRl(pol, pkt.src).Some?);
      var (maps1, ok) := SourceStage(pol, maps, pkt.src, now);
      if !ok then
        Decision(DropRl, maps1, pol.enforceAllow, false, limited)
      else if !EdgeChecked(pol, pkt) then
        Decision(Pass, maps1, pol.enforceAllow, false, limited)
      else
        var e := Edge(pkt.src.addr4, pkt.Dport(), pkt.proto);
        if EdgeDenies(pol, e) then
          Decision(DropDeny, maps1, pol.enforceAllow, true, limited)
        else
          var (maps2, ok2) := EdgeStage(pol, maps1, e, now);
          Decision(if ok2 then Pass else DropRl, maps2, pol.enforceAllow, false,
                   limited + Bit(e in pol.edgeRl && pol.edgeRl[e].Active()))
  }

  // ---------------------------------------------------------------- accounting

  function BinOf(len: nat): nat {
    if len < 64 then 0
    else if len < 128 then 1
    else if len < 256 then 2
    else if len < 512 then 3
    else if len < 1024 then 4
    else if len < 1518 then 5
    else if len < 2048 then 6
    else if len < 4096 then 7
    else if len < 8192 then 8
    else 15
  }

  function HistAdd(h: LenHist, len: nat): LenHist {
    h[BinOf(len) := LenBin(h[BinOf(len)].pkts + 1, h[BinOf(len)].bytes + len)]
  }

  function SourceEntry(sources: map<Src, SrcStats>, pkt: Packet, now: nat, v: Verdict): SrcStats
    requires pkt.Ip?
  {
    var blank := SrcStats(0, 0, 0, 0, 0, 0, 0, 0, 0, 0, 0, 0, 0, now, now, pkt.Dport(), 0);
    var st := if pkt.src in sources then sources[pkt.src] else blank;
    var moved := pkt.Dport() != 0 && st.lastDport != pkt.Dport();
    SrcStats(
      st.pkts + 1, st.bytes + pkt.len,
      st.tcp + Bit(pkt.IsTcp()), st.udp + Bit(pkt.IsUdp()), st.icmp + Bit(pkt.IsIcmp()),
      st.syn + Bit(pkt.Syn()), st.synack + Bit(pkt.SynAck()), st.rst + Bit(pkt.Rst()), st.ack + Bit(pkt.Ack()),
      st.pass + Bit(v == Pass), st.dropAllow + Bit(v == DropAllow),
      st.dropDeny + Bit(v == DropDeny), st.dropRl + Bit(v == DropRl),
      st.firstSeen, now, if moved then pkt.Dport() else st.lastDport, st.dportChanges + Bit(moved))
  }

  // The totals slot is bumped in four places on a packet's way through the program.

  function CountBasic(t: Totals, len: nat): Totals {
    t.(pkts := t.pkts + 1, bytes := t.bytes + len)
  }

  function CountHeaders(t: Totals, pkt: Packet): Totals
    requires pkt.Ip?
  {
    t.(v4 := t.v4 + Bit(pkt.src.V4?), v6 := t.v6 + Bit(pkt.src.V6?), frags := t.frags + Bit(pkt.src.V4? && pkt.frag),
       tcp := t.tcp + Bit(pkt.IsTcp()), udp := t.udp + Bit(pkt.IsUdp()), icmp := t.icmp + Bit(pkt.IsIcmp()),
       syn := t.syn + Bit(pkt.Syn()), synack := t.synack + Bit(pkt.SynAck()),
       rst := t.rst + Bit(pkt.Rst()), ack := t.ack + Bit(pkt.Ack()))
  }

  function CountDecision(t: Totals, v: Verdict, allowHit: bool, denyHit: bool, rlHits: nat): Totals {
    var h := t.(allowHits := t.allowHits + Bit(allowHit), denyHits := t.denyHits + Bit(denyHit),
                rlHits := t.rlHits + rlHits);
    match v
    case Pass => h.(pass := h.pass + 1)
    case DropAllow => h.(dropAllow := h.dropAllow + 1)
    case DropDeny => h.(dropDeny := h.dropDeny + 1)
    case DropRl => h.(dropRl := h.dropRl + 1)
  }

  function CountSource(t: Totals, moved: bool, isNew: bool): Totals {
    t.(dportChanges := t.dportChanges + Bit(moved), newSources := t.newSources + Bit(isNew))
  }

  /** The two result bits of the per-source update. */
  function SourceMoved(sources: map<Src, SrcStats>, pkt: Packet): bool
    requires pkt.Ip?
  {
    pkt.src in sources && pkt.Dport() != 0 && sources[pkt.src].lastDport != pkt.Dport()
  }

  /** One packet on one CPU. `evicted` is whatever the LRU source map discarded since the last packet. */
  datatype Arrival = Arrival(cpu: nat, pkt: Packet, now: u64, evicted: set<Src>)

  function OnPacket(pol: Policy, w: World, a: Arrival): (World, Verdict)
    requires a.cpu < |w.cpus|
  {
    var c := w.cpus[a.cpu];
    var lens := HistAdd(c.lens, a.pkt.len);
    var sources := w.sources - a.evicted;
    var t := CountBasic(c.totals, a.pkt.len);
    if a.pkt.Opaque? then
      (World(w.cpus[a.cpu := PerCpu(t.(pass := t.pass + 1), lens)], w.maps, sources), Pass)
    else
      var d := Decide(pol, w.maps, a.pkt, a.now);
      var t1 := CountDecision(CountHeaders(t, a.pkt), d.verdict, d.allowHit, d.denyHit, d.rlHits);
      var t2 := CountSource(t1, SourceMoved(sources, a.pkt), a.pkt.src !in sources);
      (World(w.cpus[a.cpu := PerCpu(t2, lens)], d.maps,
             sources[a.pkt.src := SourceEntry(sources, a.pkt, a.now, d.verdict)]), d.verdict)
  }

  // ---------------------------------------------------------------- the program

  /** The program's maps, updated in place as the C code updates them. */
  class Shield {
    var cpus: seq<PerCpu>
    var buckets: map<Src, WordBucket>
    var edges: map<Edge, WordBucket>
    var sources: map<Src, SrcStats>

    function Value(): World
      reads this
    {
      World(cpus, Maps(buckets, edges), sources)
    }

    constructor (ncpu: nat)
      ensures Value() == Boot(ncpu)
    {
      cpus := seq(ncpu, _ => PerCpu(ZERO_TOTALS, seq(LEN_BINS, _ => LenBin(0, 0))));
      buckets, edges, sources := map[], map[], map[];
    }

    /** LRU eviction by the kernel. */
    method Evict(victims: set<Src>)
      modifies this`sources
      ensures sources == old(sources) - victims
    {
      sources := sources - victims;
    }

    /** The source bucket, created on a miss. */
    method LimitSource(c: ActiveCfg, src: Src, now: u64) returns (allowed: bool)
      modifies this`buckets
      ensures (buckets, allowed) == BucketCall(c, old(buckets), src, now)
    {
      if src !in buckets {
        buckets := buckets[src := Bucket(now, c.burst - 1)];
        return true;
      }
      var st := new RlState(buckets[src].lastNs, buckets[src].tokens);
      allowed := st.AllowAndUpdate(c, now);
      buckets := buckets[src := st.Value()];
    }

    /** The edge bucket, created on a miss. */
    method LimitEdge(c: ActiveCfg, e: Edge, now: u64) returns (allowed: bool)
      modifies this`edges
      ensures (edges, allowed) == BucketCall(c, old(edges), e, now)
    {
      if e !in edges {
        edges := edges[e := Bucket(now, c.burst - 1)];
        return true;
      }
      var st := new RlState(edges[e].lastNs, edges[e].tokens);
      allowed := st.AllowAndUpdate(c, now);
      edges := edges[e := st.Value()];
    }

    /** The checks, in program order, setting the three drop flags. */
    method Check(pol: Policy, pkt: Packet, now: u64)
      returns (dropAllow: bool, dropDeny: bool, dropRl: bool, allowHit: bool, denyHit: bool, rlHits: nat)
      requires pkt.Ip?
      modifies this`buckets, this`edges
      ensures Decide(pol, old(Maps(buckets, edges)), pkt, now)
           == Decision(FlagVerdict(dropAllow, dropDeny, dropRl), Maps(buckets, edges), allowHit, denyHit, rlHits)
      ensures Bit(dropAllow) + Bit(dropDeny) + Bit(dropRl) <= 1
    {
      dropAllow, dropDeny, dropRl, allowHit, denyHit, rlHits := false, false, false, false, false, 0;
      if pol.enforceAllow {
        if pkt.src !in pol.allow { dropAllow := true; } else { allowHit := true; }
      }
      if !dropAllow {
        if pkt.src in pol.deny { dropDeny := true; denyHit := true; }
      }
      if !dropAllow && !dropDeny {
        var use := SelectRl(pol, pkt.src);
        if use.Some? {
          rlHits := rlHits + 1;
          var ok := LimitSource(use.value, pkt.src, now);
          dropRl := !ok;
        }
      }
      if !dropAllow && !dropDeny && !dropRl && pkt.src.V4? && pkt.Dport() != 0 && pol.edgeMode != 0 {
        var e := Edge(pkt.src.addr4, pkt.Dport(), pkt.proto);
        if EdgeDenies(pol, e) { dropDeny := true; denyHit := true; }
        if !dropDeny && e in pol.edgeRl && pol.edgeRl[e].Active() {
          rlHits := rlHits + 1;
          var ok := LimitEdge(pol.edgeRl[e], e, now);
          dropRl := !ok;
        }
      }
    }

    /** The per-source update: insert a first entry or bump the existing one field by field. */
    method RecordSource(pkt: Packet, now: nat, v: Verdict) returns (moved: bool, isNew: bool)
      requires pkt.Ip?
      modifies this`sources
      ensures sources == old(sources)[pkt.src := SourceEntry(old(sources), pkt, now, v)]
      ensures moved == SourceMoved(old(sources), pkt) && isNew == (pkt.src !in old(sources))
    {
      if pkt.src !in sources {
        sources := sources[pkt.src := SrcStats(
          1, pkt.len, Bit(pkt.IsTcp()), Bit(pkt.IsUdp()), Bit(pkt.IsIcmp()),
          Bit(pkt.Syn()), Bit(pkt.SynAck()), Bit(pkt.Rst()), Bit(pkt.Ack()),
          Bit(v == Pass), Bit(v == DropAllow), Bit(v == DropDeny), Bit(v == DropRl), now, now, pkt.Dport(), 0)];
        return false, true;
      }
      var st := sources[pkt.src];
      st := st.(pkts := st.pkts + 1, bytes := st.bytes + pkt.len);
      st := st.(tcp := st.tcp + Bit(pkt.IsTcp()), udp := st.udp + Bit(pkt.IsUdp()),
                icmp := st.icmp + Bit(pkt.IsIcmp()));
      st := st.(syn := st.syn + Bit(pkt.Syn()), synack := st.synack + Bit(pkt.SynAck()),
                rst := st.rst + Bit(pkt.Rst()), ack := st.ack + Bit(pkt.Ack()));
      st := st.(pass := st.pass + Bit(v == Pass), dropAllow := st.dropAllow + Bit(v == DropAllow),
                dropDeny := st.dropDeny + Bit(v == DropDeny), dropRl := st.dropRl + Bit(v == DropRl));
      st := st.(lastSeen := now);
      moved := pkt.Dport() != 0 && st.lastDport != pkt.Dport();
      if moved {
        st := st.(dportChanges := st.dportChanges + 1, lastDport := pkt.Dport());
      }
      sources := sources[pkt.src := st];
      isNew := false;
    }

    method Process(pol: Policy, a: Arrival) returns (drop: bool)
      requires a.cpu < |cpus|
      modifies this
      ensures Value() == OnPacket(pol, old(Value()), a).0
      ensures drop <==> OnPacket(pol, old(Value()), a).1 != Pass
    {
      Evict(a.evicted);
      var t := CountBasic(cpus[a.cpu].totals, a.pkt.len);
      var lens := HistAdd(cpus[a.cpu].lens, a.pkt.len);
      if a.pkt.Opaque? {
        t := t.(pass := t.pass + 1);
        cpus := cpus[a.cpu := PerCpu(t, lens)];
        return false;
      }
      t := CountHeaders(t, a.pkt);
      var dropAllow, dropDeny, dropRl, allowHit, denyHit, rlHits := Check(pol, a.pkt, a.now);
      drop := dropAllow || dropDeny || dropRl;
      var v := FlagVerdict(dropAllow, dropDeny, dropRl);
      t := CountDecision(t, v, allowHit, denyHit, rlHits);
      var moved, isNew := RecordSource(a.pkt, a.now, v);
      t := CountSource(t, moved, isNew);
      cpus := cpus[a.cpu := PerCpu(t, lens)];
    }
  }

  function FlagVerdict(dropAllow: bool, dropDeny: bool, dropRl: bool): Verdict {
    if dropAllow then DropAllow else if dropDeny then DropDeny else if dropRl then DropRl else Pass
  }
}
