/** Incremental persistence of the source baselines over whole runs of the cache. */
module SourceBaselineRuns {
  import opened Reals
  import opened SourceBaseline

  datatype Op =
    | Learned(o: Observation)
    | TriggerRead(source: string, metric: Metric, trigger: real)
    | Flush
    | Restore(snaps: seq<Snapshot>)
    | Evict(cutoff: int)

  /** The cache, and what replaying every flushed and every restored snapshot so far gives, latest wins. */
  datatype World = World(s: State, record: map<string, Profile>)

  function RestoreOne(w: World, snap: Snapshot): World {
    if Accepts(w.s, snap) then World(RestoredOne(w.s, snap), w.record[snap.source := snap.profile]) else w
  }

  function RestoreAll(w: World, snaps: seq<Snapshot>, cfg: Config): World
    decreases |snaps|
  {
    if snaps == [] || NoRoom(w.s, snaps[0], cfg) then w else RestoreAll(RestoreOne(w, snaps[0]), snaps[1..], cfg)
  }

  function Next(w: World, op: Op, cfg: Config): World {
    match op
    case Learned(o) => w.(s := Updated(w.s, o, cfg))
    case TriggerRead(source, metric, trigger) => w.(s := Triggered(w.s, source, metric, trigger, cfg).0)
    case Flush => World(Flushed(w.s).0, w.record + Flushed(w.s).1)
    case Restore(snaps) => RestoreAll(w, snaps, cfg)
    case Evict(cutoff) => w.(s := Evicted(w.s, cutoff))
  }

  function After(ops: seq<Op>, cfg: Config): World {
    if ops == [] then World(EMPTY, map[]) else Next(After(ops[..|ops| - 1], cfg), ops[|ops| - 1], cfg)
  }

  lemma {:induction false} RestoreAllIsRestored(w: World, snaps: seq<Snapshot>, cfg: Config)
    ensures RestoreAll(w, snaps, cfg).s == Restored(w.s, snaps, cfg)
    decreases |snaps|
  {
    if snaps != [] && !NoRoom(w.s, snaps[0], cfg) { RestoreAllIsRestored(RestoreOne(w, snaps[0]), snaps[1..], cfg); }
  }

  // ---------------------------------------------------------------- nothing is lost

  /** Every profile not waiting to be flushed is recorded as it is. */
  ghost predicate Synced(w: World) {
    forall k | k in w.s.m && k !in w.s.dirty :: k in w.record && w.record[k] == w.s.m[k]
  }

  ghost predicate Bounded(w: World, cfg: Config) {
    w.s.dirty <= w.s.m.Keys && |w.s.m| <= cfg.maxSources
  }

  /** A snapshot that enters the cache as it was recorded. */
  predicate Proper(snap: Snapshot) {
    snap.profile.firstSeen == 0 ==> snap.profile.lastSeen == 0
  }

  predicate ProperOp(op: Op) {
    op.Restore? ==> forall i | 0 <= i < |op.snaps| :: Proper(op.snaps[i])
  }

  lemma PutSize(m: map<string, Profile>, k: string, p: Profile)
    ensures |m[k := p]| == if k in m then |m| else |m| + 1
  {
    assert m[k := p].Keys == m.Keys + {k};
  }

  lemma EvictBounded(w: World, cutoff: int, cfg: Config)
    requires Bounded(w, cfg)
    ensures Bounded(Next(w, Evict(cutoff), cfg), cfg)
  {
    var (some, all) := (Evicted(w.s, cutoff).m.Keys, w.s.m.Keys);
    assert all == some + (all - some);
  }

  lemma {:induction false} RestoreBounded(w: World, snaps: seq<Snapshot>, cfg: Config)
    requires Bounded(w, cfg)
    ensures Bounded(RestoreAll(w, snaps, cfg), cfg)
    decreases |snaps|
  {
    if snaps != [] && !NoRoom(w.s, snaps[0], cfg) {
      PutSize(w.s.m, snaps[0].source, Dated(snaps[0].profile));
      RestoreBounded(RestoreOne(w, snaps[0]), snaps[1..], cfg);
    }
  }

  lemma NextBounded(w: World, op: Op, cfg: Config)
    requires Bounded(w, cfg)
    ensures Bounded(Next(w, op, cfg), cfg)
  {
    match op
    case Learned(o) =>
      var p := if o.source in w.s.m then w.s.m[o.source] else BLANK.(firstSeen := o.now);
      PutSize(w.s.m, o.source, Learn(p, o, cfg));
    case TriggerRead(source, metric, trigger) =>
      if source in w.s.m { PutSize(w.s.m, source, Next(w, op, cfg).s.m[source]); }
    case Flush =>
    case Restore(snaps) => RestoreBounded(w, snaps, cfg);
    case Evict(cutoff) => EvictBounded(w, cutoff, cfg);
  }

  /** Dirty sources are live and the cache stays within its limit, whatever happens. */
  lemma {:induction false} AlwaysBounded(ops: seq<Op>, cfg: Config)
    requires cfg.maxSources >= 0
    ensures Bounded(After(ops, cfg), cfg)
  {
    if ops != [] {
      AlwaysBounded(ops[..|ops| - 1], cfg);
      NextBounded(After(ops[..|ops| - 1], cfg), ops[|ops| - 1], cfg);
    }
  }

  lemma TriggerSynced(w: World, source: string, metric: Metric, trigger: real, cfg: Config)
    requires Synced(w)
    ensures Synced(Next(w, TriggerRead(source, metric, trigger), cfg))
  {
    var s' := Triggered(w.s, source, metric, trigger, cfg).0;
    if source in w.s.m && source !in s'.dirty { assert s'.m[source] == w.s.m[source]; }
  }

  lemma FlushSynced(w: World, cfg: Config)
    requires Synced(w)
    ensures Synced(Next(w, Flush, cfg)) && Next(w, Flush, cfg).s.m == w.s.m && Next(w, Flush, cfg).s.dirty == {}
  {
  }

  lemma {:induction false} RestoreSynced(w: World, snaps: seq<Snapshot>, cfg: Config)
    requires Synced(w) && forall i | 0 <= i < |snaps| :: Proper(snaps[i])
    ensures Synced(RestoreAll(w, snaps, cfg))
    decreases |snaps|
  {
    if snaps != [] && !NoRoom(w.s, snaps[0], cfg) { RestoreSynced(RestoreOne(w, snaps[0]), snaps[1..], cfg); }
  }

  lemma NextSynced(w: World, op: Op, cfg: Config)
    requires Synced(w) && ProperOp(op)
    ensures Synced(Next(w, op, cfg))
  {
    match op
    case Learned(o) =>
    case TriggerRead(source, metric, trigger) => TriggerSynced(w, source, metric, trigger, cfg);
    case Flush => FlushSynced(w, cfg);
    case Restore(snaps) => RestoreSynced(w, snaps, cfg);
    case Evict(cutoff) =>
  }

  /** When no restored profile lacks a first-seen time only, every live profile that is not marked is recorded
      as it is. */
  lemma {:induction false} AlwaysSynced(ops: seq<Op>, cfg: Config)
    requires forall i | 0 <= i < |ops| :: ProperOp(ops[i])
    ensures Synced(After(ops, cfg))
  {
    if ops != [] {
      AlwaysSynced(ops[..|ops| - 1], cfg);
      NextSynced(After(ops[..|ops| - 1], cfg), ops[|ops| - 1], cfg);
    }
  }

  /** Incremental persistence equals full: after any run, replaying everything flushed and restored, plus
      one last flush, gives every live source exactly its current profile. */
  lemma IncrementalEqualsFull(ops: seq<Op>, cfg: Config, source: string)
    requires forall i | 0 <= i < |ops| :: ProperOp(ops[i])
    requires source in After(ops, cfg).s.m
    ensures var w := After(ops + [Flush], cfg);
      source in w.record && w.record[source] == After(ops, cfg).s.m[source]
  {
    assert (ops + [Flush])[..|ops|] == ops && (ops + [Flush])[|ops|] == Flush;
    AlwaysSynced(ops, cfg);
    FlushSynced(After(ops, cfg), cfg);
  }

  /** Restoring one snapshot breaks this exactly when it is taken in for a source that is not dirty, with a
      last-seen time but no first-seen time: the cache then changes it without marking it. */
  lemma RestoreBreaksIff(w: World, snap: Snapshot, cfg: Config)
    requires Synced(w)
    ensures Synced(RestoreAll(w, [snap], cfg)) <==>
      !(!NoRoom(w.s, snap, cfg) && Accepts(w.s, snap) && snap.source !in w.s.dirty
        && snap.profile.firstSeen == 0 && snap.profile.lastSeen != 0)
  {
    if !NoRoom(w.s, snap, cfg) {
      var v := RestoreOne(w, snap);
      assert RestoreAll(w, [snap], cfg) == v by { assert [snap][1..] == []; }
      if Accepts(w.s, snap) && snap.source !in w.s.dirty {
        assert v.s.m[snap.source] == Dated(snap.profile) && v.record[snap.source] == snap.profile;
      }
    }
  }

  /** A profile last seen at 5 and never first seen. */
  function Dateless(source: string): Snapshot {
    Snapshot(source, BLANK.(lastSeen := 5))
  }

  /** Restored into an empty cache it is changed there, and no flush records the change. */
  lemma DatelessIsLost(source: string, cfg: Config)
    requires source != "" && cfg.maxSources > 0
    ensures var (ops, flushed) := ([Restore([Dateless(source)])], [Restore([Dateless(source)]), Flush]);
      && source in After(ops, cfg).s.m && source in After(flushed, cfg).record
      && After(flushed, cfg).record[source] != After(ops, cfg).s.m[source]
  {
    var (ops, flushed, snaps) := ([Restore([Dateless(source)])], [Restore([Dateless(source)]), Flush],
      [Dateless(source)]);
    var start := World(EMPTY, map[]);
    assert ops[..0] == [] && flushed[..1] == ops && snaps[1..] == [];
    assert After(ops, cfg) == RestoreAll(start, snaps, cfg) == RestoreOne(start, snaps[0]);
  }

  // ---------------------------------------------------------------- the shape of learned profiles

  predicate NonNegative(q: Quad) {
    q.pps >= 0.0 && q.bps >= 0.0 && q.syn >= 0.0 && q.scan >= 0.0
  }

  predicate AtMost(q: Quad, r: Quad) {
    q.pps <= r.pps && q.bps <= r.bps && q.syn <= r.syn && q.scan <= r.scan
  }

  /** Every counted observation is a window, and a promoted peak is never below the average. */
  predicate Shaped(p: Profile) {
    && p.windows == p.obsCount >= 1 && p.confidence >= 0.0 && p.lastSeen > 0 && p.firstSeen > 0
    && NonNegative(p.ewma) && (p.promoted ==> AtMost(p.ewma, p.peak))
  }

  predicate ShapedOp(op: Op) {
    && (op.Learned? ==> NonNegative(op.o.rates) && op.o.now > 0 && op.o.age >= 0.0)
    && (op.Restore? ==> forall i | 0 <= i < |op.snaps| :: Shaped(op.snaps[i].profile))
  }

  lemma BlendBounds(e: real, v: real, a: real, top: real)
    requires 0.0 < a <= 1.0 && e >= 0.0 && v >= 0.0
    ensures Blend(e, v, a) >= 0.0
    ensures e <= top && v <= top ==> Blend(e, v, a) <= top
  {
    MulNonNegative(1.0 - a, e);
    MulNonNegative(a, v);
    if e <= top && v <= top {
      MulNonNegative(1.0 - a, top - e);
      MulNonNegative(a, top - v);
      assert top - Blend(e, v, a) == (1.0 - a) * (top - e) + a * (top - v);
    }
  }

  lemma ConfidenceNonNegative(p: Profile, cfg: Config, age: real)
    requires age >= 0.0
    ensures ConfidenceOf(p, cfg, age) >= 0.0
  {
    var d := (if cfg.minConfObs > 100 then cfg.minConfObs else 100) as real;
    assert p.obsCount as real / d >= 0.0;
  }

  lemma AveragedBounds(p: Profile, o: Observation, cfg: Config)
    requires Usable(cfg) && NonNegative(o.rates) && NonNegative(p.ewma)
    ensures NonNegative(Averaged(p, o, cfg))
    ensures p.obsCount > 0 && AtMost(p.ewma, p.peak) ==> AtMost(Averaged(p, o, cfg), Raise(p.peak, o.rates))
  {
    if p.obsCount > 0 {
      var a := if p.promoted then cfg.alphaPromoted else cfg.alpha;
      var top := Raise(p.peak, o.rates);
      BlendBounds(p.ewma.pps, o.rates.pps, a, top.pps);
      BlendBounds(p.ewma.bps, o.rates.bps, a, top.bps);
      BlendBounds(p.ewma.syn, o.rates.syn, a, top.syn);
      BlendBounds(p.ewma.scan, o.rates.scan, a, top.scan);
    }
  }

  lemma LearnShapes(p: Profile, o: Observation, cfg: Config)
    requires Usable(cfg) && NonNegative(o.rates) && o.now > 0 && o.age >= 0.0
    requires Shaped(p) || p == BLANK.(firstSeen := o.now)
    ensures Shaped(Learn(p, o, cfg))
  {
    AveragedBounds(p, o, cfg);
    var q := Learn(p, o, cfg);
    var e := Averaged(p, o, cfg);
    assert AtMost(e, Scale(e, 1.5));
    var r := q.(confidence := p.confidence);
    ConfidenceNonNegative(r, cfg, o.age);
    assert ConfidenceOf(r, cfg, o.age) == q.confidence;
  }

  ghost predicate AllShaped(m: map<string, Profile>) {
    forall k | k in m :: Shaped(m[k])
  }

  lemma {:induction false} RestoreShaped(w: World, snaps: seq<Snapshot>, cfg: Config)
    requires AllShaped(w.s.m) && AllShaped(w.record) && forall i | 0 <= i < |snaps| :: Shaped(snaps[i].profile)
    ensures AllShaped(RestoreAll(w, snaps, cfg).s.m) && AllShaped(RestoreAll(w, snaps, cfg).record)
    decreases |snaps|
  {
    if snaps != [] && !NoRoom(w.s, snaps[0], cfg) { RestoreShaped(RestoreOne(w, snaps[0]), snaps[1..], cfg); }
  }

  lemma NextShaped(w: World, op: Op, cfg: Config)
    requires Usable(cfg) && AllShaped(w.s.m) && AllShaped(w.record) && ShapedOp(op)
    ensures AllShaped(Next(w, op, cfg).s.m) && AllShaped(Next(w, op, cfg).record)
  {
    match op
    case Learned(o) =>
      LearnShapes(if o.source in w.s.m then w.s.m[o.source] else BLANK.(firstSeen := o.now), o, cfg);
    case TriggerRead(_, _, _) =>
    case Flush =>
    case Restore(snaps) => RestoreShaped(w, snaps, cfg);
    case Evict(_) =>
  }

  /** Every profile a run can reach, live or recorded, has that shape. */
  lemma {:induction false} AlwaysShaped(ops: seq<Op>, cfg: Config)
    requires Usable(cfg) && forall i | 0 <= i < |ops| :: ShapedOp(ops[i])
    ensures AllShaped(After(ops, cfg).s.m) && AllShaped(After(ops, cfg).record)
  {
    if ops != [] {
      AlwaysShaped(ops[..|ops| - 1], cfg);
      NextShaped(After(ops[..|ops| - 1], cfg), ops[|ops| - 1], cfg);
    }
  }

  // ---------------------------------------------------------------- recorded triggers

  /** Neither trigger is negative, and the one in force is never below the global one. */
  predicate NeverLowers(p: Profile) {
    NonNegative(p.global) && AtMost(p.global, p.effective)
  }

  ghost predicate NoneLowered(m: map<string, Profile>) {
    forall k | k in m :: NeverLowers(m[k])
  }

  predicate NeverLoweringOp(op: Op) {
    op.Restore? ==> forall i | 0 <= i < |op.snaps| :: NeverLowers(op.snaps[i].profile)
  }

  lemma {:induction false} RestoreLowersNone(w: World, snaps: seq<Snapshot>, cfg: Config)
    requires NoneLowered(w.s.m) && NoneLowered(w.record) && forall i | 0 <= i < |snaps| :: NeverLowers(snaps[i].profile)
    ensures NoneLowered(RestoreAll(w, snaps, cfg).s.m) && NoneLowered(RestoreAll(w, snaps, cfg).record)
    decreases |snaps|
  {
    if snaps != [] && !NoRoom(w.s, snaps[0], cfg) { RestoreLowersNone(RestoreOne(w, snaps[0]), snaps[1..], cfg); }
  }

  /** Every profile a run can reach, live or recorded, has triggers of that kind: neither learning nor reading
      them under changing global triggers ever lowers one. */
  lemma {:induction false} TriggersNeverLowered(ops: seq<Op>, cfg: Config)
    requires forall i | 0 <= i < |ops| :: NeverLoweringOp(ops[i])
    ensures NoneLowered(After(ops, cfg).s.m) && NoneLowered(After(ops, cfg).record)
  {
    if ops != [] {
      var (w, op) := (After(ops[..|ops| - 1], cfg), ops[|ops| - 1]);
      TriggersNeverLowered(ops[..|ops| - 1], cfg);
      if op.Restore? { RestoreLowersNone(w, op.snaps, cfg); }
    }
  }
}
