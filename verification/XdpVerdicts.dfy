/** What one packet does, read off the policy, the maps and the packet alone: its verdict, the buckets it
    charges, and every counter it moves. */
module XdpVerdicts {
  import opened Text
  import opened TokenBucket
  import opened XdpShield

  // ---------------------------------------------------------------- the policy, read directly

  predicate Limiting(c: RlCfg) {
    c.ratePps > 0 && c.burst > 0
  }

  predicate Overridden(pol: Policy, s: Src) {
    s in pol.rlOverride && Limiting(pol.rlOverride[s])
  }

  predicate Limited(pol: Policy, s: Src) {
    Overridden(pol, s) || Limiting(pol.rlDefault)
  }

  /** The override if it limits, else the default. */
  function InForce(pol: Policy, s: Src): ActiveCfg
    requires Limited(pol, s)
  {
    if Overridden(pol, s) then pol.rlOverride[s] else pol.rlDefault
  }

  /** A key without a bucket has its first packet admitted, one with a bucket needs a token after the refill. */
  predicate Admits<K>(m: map<K, WordBucket>, k: K, c: ActiveCfg, now: u64) {
    k in m ==> WordRefill(c, m[k], now).tokens > 0
  }

  /** The bucket of a key once a packet has been charged to it. */
  ghost predicate Charged<K(!new)>(m: map<K, WordBucket>, m': map<K, WordBucket>, k: K, c: ActiveCfg, now: u64) {
    && k in m'
    && (k !in m ==> m'[k].lastNs == now && m'[k].tokens == c.burst - 1)
    && (k in m ==>
          var b := WordRefill(c, m[k], now);
          m'[k].lastNs == b.lastNs && m'[k].tokens == if b.tokens > 0 then b.tokens - 1 else 0)
    && forall j | j != k :: (j in m' <==> j in m) && (j in m ==> m'[j] == m[j])
  }

  predicate ListsAdmit(pol: Policy, s: Src) {
    s !in pol.deny && (pol.enforceAllow ==> s in pol.allow)
  }

  predicate SourceAdmits(pol: Policy, w: World, s: Src, now: u64) {
    Limited(pol, s) ==> Admits(w.maps.buckets, s, InForce(pol, s), now)
  }

  /** The packet belongs to the edge: IPv4 with a nonzero TCP or UDP destination port. */
  predicate OfEdge(pkt: Packet, e: Edge) {
    && pkt.Ip? && pkt.src == V4(e.src) && pkt.proto == e.proto && e.dport != 0
    && ((pkt.l4.Tcp? && pkt.l4.tcpDport == e.dport) || (pkt.l4.Udp? && pkt.l4.udpDport == e.dport))
  }

  /** Mode 2 admits listed edges only; every other nonzero mode refuses the listed ones. */
  predicate EdgeListAdmits(pol: Policy, e: Edge) {
    if pol.edgeMode == 2 then e in pol.edgeAllow else e !in pol.edgeDeny
  }

  predicate EdgeLimits(pol: Policy, e: Edge) {
    e in pol.edgeRl && Limiting(pol.edgeRl[e])
  }

  predicate EdgeBucketAdmits(pol: Policy, w: World, e: Edge, now: u64) {
    EdgeLimits(pol, e) ==> Admits(w.maps.edges, e, pol.edgeRl[e], now)
  }

  /** The packet gets as far as its source limiter, and past it. */
  predicate PastSource(pol: Policy, w: World, a: Arrival) {
    a.pkt.Ip? && ListsAdmit(pol, a.pkt.src) && SourceAdmits(pol, w, a.pkt.src, a.now)
  }

  ghost predicate FacesEdge(pol: Policy, pkt: Packet, e: Edge) {
    OfEdge(pkt, e) && pol.edgeMode != 0
  }

  lemma OneEdge(pkt: Packet, e: Edge)
    ensures OfEdge(pkt, e)
        <==> pkt.Ip? && pkt.src.V4? && pkt.Dport() != 0 && e == Edge(pkt.src.addr4, pkt.Dport(), pkt.proto)
  {
  }

  lemma CallIs<K(!new)>(c: ActiveCfg, m: map<K, WordBucket>, k: K, now: u64)
    ensures var (m', ok) := BucketCall(c, m, k, now);
      Charged(m, m', k, c, now) && (ok <==> Admits(m, k, c, now))
  {
  }

  lemma SelectIs(pol: Policy, s: Src)
    ensures SelectRl(pol, s) == if Limited(pol, s) then Some(InForce(pol, s)) else None
  {
  }

  // ---------------------------------------------------------------- the four verdicts

  /** A packet passes exactly when it is not IP, or its lists let it through, the limit in force on its source
      admits it and, where edges are checked, the mode's list and the edge's limit admit it. */
  lemma PassIff(pol: Policy, w: World, a: Arrival)
    requires a.cpu < |w.cpus|
    ensures OnPacket(pol, w, a).1 == Pass <==>
      a.pkt.Opaque? || (PastSource(pol, w, a) && forall e | FacesEdge(pol, a.pkt, e) ::
                          EdgeListAdmits(pol, e) && EdgeBucketAdmits(pol, w, e, a.now))
  {
    if a.pkt.Ip? { DecideIs(pol, w, a); }
  }

  /** It is dropped by the allow list exactly when that is enforced and does not hold its source. */
  lemma DropAllowIff(pol: Policy, w: World, a: Arrival)
    requires a.cpu < |w.cpus|
    ensures OnPacket(pol, w, a).1 == DropAllow <==> a.pkt.Ip? && pol.enforceAllow && a.pkt.src !in pol.allow
  {
    if a.pkt.Ip? { DecideIs(pol, w, a); }
  }

  /** It is dropped as denied exactly when the allow list lets it through and either its source is denied, or
      the source limit admits it and its edge is refused. */
  lemma DropDenyIff(pol: Policy, w: World, a: Arrival)
    requires a.cpu < |w.cpus|
    ensures OnPacket(pol, w, a).1 == DropDeny <==>
      || (a.pkt.Ip? && (pol.enforceAllow ==> a.pkt.src in pol.allow) && a.pkt.src in pol.deny)
      || (PastSource(pol, w, a) && exists e :: FacesEdge(pol, a.pkt, e) && !EdgeListAdmits(pol, e))
  {
    if a.pkt.Ip? { DecideIs(pol, w, a); }
  }

  /** It is dropped by a limiter exactly when the lists let it through and the source's limit refuses it, or
      admits it and the limit of its admitted edge refuses it. */
  lemma DropRlIff(pol: Policy, w: World, a: Arrival)
    requires a.cpu < |w.cpus|
    ensures OnPacket(pol, w, a).1 == DropRl <==>
      || (a.pkt.Ip? && ListsAdmit(pol, a.pkt.src) && !SourceAdmits(pol, w, a.pkt.src, a.now))
      || (PastSource(pol, w, a) && exists e ::
            FacesEdge(pol, a.pkt, e) && EdgeListAdmits(pol, e) && !EdgeBucketAdmits(pol, w, e, a.now))
  {
    if a.pkt.Ip? { DecideIs(pol, w, a); }
  }

  /** The edge a packet faces, if there is one. */
  function EdgeOf(pkt: Packet): Edge {
    if pkt.Ip? && pkt.src.V4? then Edge(pkt.src.addr4, pkt.Dport(), pkt.proto) else Edge(0, 0, 0)
  }

  lemma DecideIs(pol: Policy, w: World, a: Arrival)
    requires a.pkt.Ip?
    ensures forall e :: FacesEdge(pol, a.pkt, e) <==> EdgeChecked(pol, a.pkt) && e == EdgeOf(a.pkt)
    ensures
      var (d, s, e) := (Decide(pol, w.maps, a.pkt, a.now), a.pkt.src, EdgeOf(a.pkt));
      d.verdict ==
        if pol.enforceAllow && s !in pol.allow then DropAllow
        else if s in pol.deny then DropDeny
        else if !SourceAdmits(pol, w, s, a.now) then DropRl
        else if !EdgeChecked(pol, a.pkt) then Pass
        else if !EdgeListAdmits(pol, e) then DropDeny
        else if !EdgeBucketAdmits(pol, w, e, a.now) then DropRl else Pass
  {
    forall e { OneEdge(a.pkt, e); }
    SelectIs(pol, a.pkt.src);
    if Limited(pol, a.pkt.src) { CallIs(InForce(pol, a.pkt.src), w.maps.buckets, a.pkt.src, a.now); }
    var e := EdgeOf(a.pkt);
    if EdgeLimits(pol, e) { CallIs(pol.edgeRl[e], w.maps.edges, e, a.now); }
  }

  // ---------------------------------------------------------------- the buckets

  /** The maps a decision leaves, in terms of bucket calls. */
  lemma DecideCharges(pol: Policy, w: World, a: Arrival)
    requires a.pkt.Ip?
    ensures var (d, s, e) := (Decide(pol, w.maps, a.pkt, a.now), a.pkt.src, EdgeOf(a.pkt));
      && d.maps.buckets == (if ListsAdmit(pol, s) && Limited(pol, s) then
                              BucketCall(InForce(pol, s), w.maps.buckets, s, a.now).0 else w.maps.buckets)
      && d.maps.edges == (if PastSource(pol, w, a) && EdgeChecked(pol, a.pkt)
                            && EdgeListAdmits(pol, e) && EdgeLimits(pol, e)
                          then BucketCall(pol.edgeRl[e], w.maps.edges, e, a.now).0 else w.maps.edges)
  {
    SelectIs(pol, a.pkt.src);
    if Limited(pol, a.pkt.src) { CallIs(InForce(pol, a.pkt.src), w.maps.buckets, a.pkt.src, a.now); }
  }

  lemma DecisionKept(pol: Policy, w: World, a: Arrival)
    requires a.cpu < |w.cpus|
    ensures OnPacket(pol, w, a).0.maps == if a.pkt.Ip? then Decide(pol, w.maps, a.pkt, a.now).maps else w.maps
  {
  }

  /** A packet charges the bucket of its source exactly when the lists let it through and a limit is in force. */
  lemma SourceCharged(pol: Policy, w: World, a: Arrival)
    requires a.cpu < |w.cpus|
    ensures var w' := OnPacket(pol, w, a).0;
      if a.pkt.Ip? && ListsAdmit(pol, a.pkt.src) && Limited(pol, a.pkt.src) then
        Charged(w.maps.buckets, w'.maps.buckets, a.pkt.src, InForce(pol, a.pkt.src), a.now)
      else w'.maps.buckets == w.maps.buckets
  {
    DecisionKept(pol, w, a);
    if a.pkt.Ip? {
      DecideCharges(pol, w, a);
      if Limited(pol, a.pkt.src) { CallIs(InForce(pol, a.pkt.src), w.maps.buckets, a.pkt.src, a.now); }
    }
  }

  /** And the bucket of its edge exactly when it gets past the source and the edge list, and the edge has a
      limit. */
  lemma EdgeCharged(pol: Policy, w: World, a: Arrival, e: Edge)
    requires a.cpu < |w.cpus|
    ensures var (before, after) := (w.maps.edges, OnPacket(pol, w, a).0.maps.edges);
      if PastSource(pol, w, a) && FacesEdge(pol, a.pkt, e) && EdgeListAdmits(pol, e) && EdgeLimits(pol, e) then
        Charged(before, after, e, pol.edgeRl[e], a.now)
      else (e in after <==> e in before) && (e in before ==> after[e] == before[e])
  {
    DecisionKept(pol, w, a);
    if a.pkt.Ip? {
      DecideCharges(pol, w, a);
      OneEdge(a.pkt, e);
      var f := EdgeOf(a.pkt);
      if EdgeLimits(pol, f) { CallIs(pol.edgeRl[f], w.maps.edges, f, a.now); }
    }
  }
}
