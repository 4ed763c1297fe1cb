/** Per-source traffic baselines in a bounded cache that remembers which profiles changed since they were
    last handed out for persistence. Floating point is read as real arithmetic; time 0 is the zero time. */
module SourceBaseline {
  import opened Reals

  datatype Metric = Pps | Bps | Syn | Scan

  datatype Quad = Quad(pps: real, bps: real, syn: real, scan: real) {
    function Get(m: Metric): real {
      match m
      case Pps => pps
      case Bps => bps
      case Syn => syn
      case Scan => scan
    }

    function With(m: Metric, v: real): (q: Quad)
      ensures q.Get(m) == v && forall n | n != m :: q.Get(n) == Get(n)
    {
      match m
      case Pps => this.(pps := v)
      case Bps => this.(bps := v)
      case Syn => this.(syn := v)
      case Scan => this.(scan := v)
    }
  }

  const ZERO: Quad := Quad(0.0, 0.0, 0.0, 0.0)

  datatype Profile = Profile(
    ewma: Quad, peak: Quad, global: Quad, effective: Quad, obsCount: nat, windows: nat,
    firstSeen: int, lastSeen: int, promoted: bool, confidence: real)

  const BLANK: Profile := Profile(ZERO, ZERO, ZERO, ZERO, 0, 0, 0, 0, false, 0.0)

  datatype Snapshot = Snapshot(source: string, profile: Profile)

  datatype Config = Config(
    alpha: real, alphaPromoted: real, minUpdatePps: real, minObs: nat, minConfObs: nat, maxSources: int,
    peakMultiplier: real, minConfidence: real)

  /** The defaults for settings that are not positive. */
  function Normalize(cfg: Config): (c: Config)
    ensures c.alpha > 0.0 && c.alphaPromoted > 0.0 && c.minUpdatePps > 0.0 && c.minObs > 0 && c.minConfObs > 0
    ensures c.maxSources > 0 && c.peakMultiplier > 0.0 && c.minConfidence > 0.0
    ensures (cfg.alpha > 0.0 && cfg.alphaPromoted > 0.0 && cfg.minUpdatePps > 0.0 && cfg.minObs > 0
      && cfg.minConfObs > 0
             && cfg.maxSources > 0 && cfg.peakMultiplier > 0.0 && cfg.minConfidence > 0.0) ==> c == cfg
  {
    Config(
      if cfg.alpha <= 0.0 then 0.10 else cfg.alpha,
      if cfg.alphaPromoted <= 0.0 then 0.02 else cfg.alphaPromoted,
      if cfg.minUpdatePps <= 0.0 then 3.0 else cfg.minUpdatePps,
      if cfg.minObs == 0 then 30 else cfg.minObs,
      if cfg.minConfObs == 0 then 100 else cfg.minConfObs,
      if cfg.maxSources <= 0 then 100_000 else cfg.maxSources,
      if cfg.peakMultiplier <= 0.0 then 1.2 else cfg.peakMultiplier,
      if cfg.minConfidence <= 0.0 then 0.4 else cfg.minConfidence)
  }

  predicate Usable(cfg: Config) {
    && 0.0 < cfg.alpha <= 1.0 && 0.0 < cfg.alphaPromoted <= 1.0
    && cfg.minObs > 0 && cfg.minConfObs > 0 && cfg.maxSources > 0
  }

  /** The rates of one source in one tick; `age` is its age in seconds when the confidence is recomputed. */
  datatype Observation = Observation(source: string, rates: Quad, suspicious: bool, now: int, age: real)

  // ---------------------------------------------------------------- learning, on values

  function Blend(e: real, v: real, a: real): real {
    (1.0 - a) * e + a * v
  }

  function BlendAll(e: Quad, v: Quad, a: real): Quad {
    Quad(Blend(e.pps, v.pps, a), Blend(e.bps, v.bps, a), Blend(e.syn, v.syn, a), Blend(e.scan, v.scan, a))
  }

  function Raise(peak: Quad, v: Quad): Quad {
    Quad(if v.pps > peak.pps then v.pps else peak.pps, if v.bps > peak.bps then v.bps else peak.bps,
         if v.syn > peak.syn then v.syn else peak.syn, if v.scan > peak.scan then v.scan else peak.scan)
  }

  function Scale(e: Quad, f: real): Quad {
    Quad(e.pps * f, e.bps * f, e.syn * f, e.scan * f)
  }

  function ConfidenceOf(p: Profile, cfg: Config, age: real): real {
    0.4 * Min(p.obsCount as real / (if cfg.minConfObs > 100 then cfg.minConfObs else 100) as real, 1.0)
    + 0.4 * Min(p.windows as real / 24.0, 1.0) + 0.2 * Min(age / 604800.0, 1.0)
  }

  function Averaged(p: Profile, o: Observation, cfg: Config): Quad {
    if p.obsCount == 0 then o.rates else BlendAll(p.ewma, o.rates, if p.promoted then cfg.alphaPromoted else cfg.alpha)
  }

  function Learn(p: Profile, o: Observation, cfg: Config): Profile {
    var e := Averaged(p, o, cfg);
    var q := p.(ewma := e, peak := if p.promoted then Raise(p.peak, o.rates) else p.peak,
                obsCount := p.obsCount + 1, windows := p.windows + 1, lastSeen := o.now);
    var r := if !q.promoted && q.obsCount >= cfg.minObs then q.(promoted := true, peak := Scale(e, 1.5)) else q;
    r.(confidence := ConfidenceOf(r, cfg, o.age))
  }

  // ---------------------------------------------------------------- the cache, on values

  datatype State = State(m: map<string, Profile>, dirty: set<string>)

  const EMPTY: State := State(map[], {})

  predicate Counted(o: Observation, cfg: Config) {
    !o.suspicious && o.rates.pps >= cfg.minUpdatePps
  }

  function Updated(s: State, o: Observation, cfg: Config): State {
    if !Counted(o, cfg) || (o.source !in s.m && |s.m| >= cfg.maxSources) then s
    else
      var p := if o.source in s.m then s.m[o.source] else BLANK.(firstSeen := o.now);
      State(s.m[o.source := Learn(p, o, cfg)], s.dirty + {o.source})
  }

  /** The learned peak with its margin. */
  function Margin(p: Profile, metric: Metric, cfg: Config): real {
    p.peak.Get(metric) * cfg.peakMultiplier
  }

  /** The trigger in force for a source: the global one, unless a trusted baseline raises it. */
  function Effective(p: Profile, metric: Metric, trigger: real, cfg: Config): real {
    if trigger <= 0.0 then 0.0
    else if p.promoted && p.confidence >= cfg.minConfidence && Margin(p, metric, cfg) > trigger
      then Margin(p, metric, cfg)
    else trigger
  }

  function Recorded(p: Profile, metric: Metric, trigger: real, effective: real): Profile {
    p.(global := p.global.With(metric, trigger), effective := p.effective.With(metric, effective))
  }

  function Triggered(s: State, source: string, metric: Metric, trigger: real, cfg: Config): (State, real) {
    if source !in s.m then (s, if trigger <= 0.0 then 0.0 else trigger)
    else
      var p := s.m[source];
      var effective := Effective(p, metric, trigger, cfg);
      var q := Recorded(p, metric, if trigger <= 0.0 then 0.0 else trigger, effective);
      (State(s.m[source := q], if q.global != p.global || q.effective != p.effective then s.dirty + {source}
        else s.dirty), effective)
  }

  /** A trusted baseline of the source has a margin above the global trigger. */
  predicate Raises(s: State, source: string, metric: Metric, trigger: real, cfg: Config) {
    && source in s.m && s.m[source].promoted && s.m[source].confidence >= cfg.minConfidence
    && Margin(s.m[source], metric, cfg) > trigger
  }

  /** A positive global trigger is never lowered, and it is raised, to the margin, exactly for a source whose
      baseline is promoted and confident and has a larger margin. */
  lemma TriggerRaisedIff(s: State, source: string, metric: Metric, trigger: real, cfg: Config)
    ensures var effective := Triggered(s, source, metric, trigger, cfg).1;
      if trigger <= 0.0 then effective == 0.0
      else
        && effective >= trigger
        && (effective > trigger <==> Raises(s, source, metric, trigger, cfg))
        && (effective > trigger ==> effective == Margin(s.m[source], metric, cfg))
  {
  }

  lemma WithSame(q: Quad, metric: Metric)
    ensures q.With(metric, q.Get(metric)) == q
  {
  }

  /** A larger global trigger never gives a smaller one in force. */
  lemma TriggerMonotone(s: State, source: string, metric: Metric, low: real, high: real, cfg: Config)
    requires low <= high
    ensures Triggered(s, source, metric, low, cfg).1 <= Triggered(s, source, metric, high, cfg).1
  {
  }

  lemma RecordedTwice(p: Profile, metric: Metric, trigger: real, effective: real)
    ensures var q := Recorded(p, metric, trigger, effective); Recorded(q, metric, trigger, effective) == q
  {
    WithSame(p.global.With(metric, trigger), metric);
    WithSame(p.effective.With(metric, effective), metric);
  }

  /** Reading a trigger again answers the same and marks nothing. */
  lemma TriggerReadTwice(s: State, source: string, metric: Metric, trigger: real, cfg: Config)
    ensures var (s1, effective) := Triggered(s, source, metric, trigger, cfg);
      Triggered(s1, source, metric, trigger, cfg) == (s1, effective)
  {
    if source in s.m {
      var (s1, effective) := Triggered(s, source, metric, trigger, cfg);
      var q := s1.m[source];
      RecordedTwice(s.m[source], metric, if trigger <= 0.0 then 0.0 else trigger, effective);
      assert Effective(q, metric, trigger, cfg) == effective && s1.m[source := q] == s1.m;
    }
  }

  /** The profiles to persist, and the cache once they are handed out. */
  function Flushed(s: State): (State, map<string, Profile>) {
    (s.(dirty := {}), map k | k in s.dirty && k in s.m :: s.m[k])
  }

  predicate Accepts(s: State, snap: Snapshot) {
    snap.source != "" && (snap.source in s.m ==> s.m[snap.source].lastSeen < snap.profile.lastSeen)
  }

  /** A profile as it enters the cache: without a first-seen time it gets its last-seen time. */
  function Dated(p: Profile): Profile {
    if p.firstSeen == 0 then p.(firstSeen := p.lastSeen) else p
  }

  predicate NoRoom(s: State, snap: Snapshot, cfg: Config) {
    snap.source != "" && snap.source !in s.m && |s.m| >= cfg.maxSources
  }

  function RestoredOne(s: State, snap: Snapshot): State {
    if Accepts(s, snap) then s.(m := s.m[snap.source := Dated(snap.profile)]) else s
  }

  /** Snapshots are taken in order until one finds the cache full. */
  function Restored(s: State, snaps: seq<Snapshot>, cfg: Config): State
    decreases |snaps|
  {
    if snaps == [] || NoRoom(s, snaps[0], cfg) then s else Restored(RestoredOne(s, snaps[0]), snaps[1..], cfg)
  }

  /** How many of the snapshots are taken in. */
  function RestoredCount(s: State, snaps: seq<Snapshot>, cfg: Config): nat
    decreases |snaps|
  {
    if snaps == [] || NoRoom(s, snaps[0], cfg) then 0
    else (if Accepts(s, snaps[0]) then 1 else 0) + RestoredCount(RestoredOne(s, snaps[0]), snaps[1..], cfg)
  }

  function Evicted(s: State, cutoff: int): State {
    State(map k | k in s.m && s.m[k].lastSeen >= cutoff :: s.m[k],
          set k | k in s.dirty && (k in s.m ==> s.m[k].lastSeen >= cutoff))
  }

  /** An eviction that has yet to visit `rest`. */
  function Surviving(all: map<string, Profile>, rest: set<string>, cutoff: int): map<string, Profile> {
    map k | k in all && (k in rest || all[k].lastSeen >= cutoff) :: all[k]
  }

  function Marked(all: map<string, Profile>, marks: set<string>, rest: set<string>, cutoff: int): set<string> {
    set k | k in marks && (k in all && k !in rest ==> all[k].lastSeen >= cutoff)
  }

  lemma VisitOne(all: map<string, Profile>, marks: set<string>, rest: set<string>, cutoff: int, k: string)
    requires k in rest && rest <= all.Keys
    ensures var (m, d, stale) := (Surviving(all, rest, cutoff), Marked(all, marks, rest, cutoff),
      all[k].lastSeen < cutoff);
      && k in m && m[k] == all[k]
      && Surviving(all, rest - {k}, cutoff) == (if stale then m - {k} else m)
      && Marked(all, marks, rest - {k}, cutoff) == (if stale then d - {k} else d)
  {
  }

  // ---------------------------------------------------------------- the cache, in place

  class Cache {
    const cfg: Config
    var m: map<string, Profile>
    var dirty: set<string>

    ghost function Value(): State
      reads this
    {
      State(m, dirty)
    }

    constructor (cfg: Config)
      ensures this.cfg == Normalize(cfg) && Value() == EMPTY
    {
      this.cfg := Normalize(cfg);
      m, dirty := map[], {};
    }

    method Update(o: Observation)
      modifies this
      ensures Value() == Updated(old(Value()), o, cfg)
    {
      if o.suspicious || o.rates.pps < cfg.minUpdatePps { return; }
      var p := BLANK.(firstSeen := o.now);
      if o.source in m {
        p := m[o.source];
      } else if |m| >= cfg.maxSources {
        return;
      }
      var alpha := if p.promoted then cfg.alphaPromoted else cfg.alpha;
      p := p.(ewma := if p.obsCount == 0 then o.rates else BlendAll(p.ewma, o.rates, alpha));
      if p.promoted { p := p.(peak := Raise(p.peak, o.rates)); }
      p := p.(obsCount := p.obsCount + 1, windows := p.windows + 1, lastSeen := o.now);
      dirty := dirty + {o.source};
      if !p.promoted && p.obsCount >= cfg.minObs {
        p := p.(promoted := true, peak := Scale(p.ewma, 1.5));
      }
      p := p.(confidence := ConfidenceOf(p, cfg, o.age));
      m := m[o.source := p];
    }

    method RecordTrigger(source: string, metric: Metric, trigger: real, effective: real)
      requires source in m
      modifies this
      ensures m == old(m)[source := Recorded(old(m)[source], metric, trigger, effective)]
      ensures dirty == if m[source].global != old(m)[source].global || m[source].effective != old(m)[source].effective
                       then old(dirty) + {source} else old(dirty)
    {
      var p := m[source];
      m := m[source := p.(global := p.global.With(metric, trigger), effective := p.effective.With(metric, effective))];
      if m[source].global != p.global || m[source].effective != p.effective {
        dirty := dirty + {source};
      }
    }

    method EffectiveTrigger(source: string, metric: Metric, trigger: real) returns (effective: real)
      modifies this
      ensures (Value(), effective) == Triggered(old(Value()), source, metric, trigger, cfg)
    {
      if trigger <= 0.0 {
        if source in m { RecordTrigger(source, metric, 0.0, 0.0); }
        return 0.0;
      }
      if source !in m || !m[source].promoted || m[source].confidence < cfg.minConfidence {
        if source in m { RecordTrigger(source, metric, trigger, trigger); }
        return trigger;
      }
      effective := Margin(m[source], metric, cfg);
      if effective > trigger {
        RecordTrigger(source, metric, trigger, effective);
        return effective;
      }
      RecordTrigger(source, metric, trigger, trigger);
      return trigger;
    }

    method SnapshotDirty() returns (out: map<string, Profile>)
      modifies this
      ensures (Value(), out) == Flushed(old(Value()))
    {
      out := map[];
      var rest := dirty;
      while rest != {}
        invariant rest <= dirty && m == old(m) && dirty == old(dirty)
        invariant out == map k | k in dirty - rest && k in m :: m[k]
        decreases |rest|
      {
        var k :| k in rest;
        if k in m { out := out[k := m[k]]; }
        rest := rest - {k};
      }
      assert out == map k | k in old(dirty) && k in m :: m[k];
      dirty := {};
    }

    method Restore(snaps: seq<Snapshot>) returns (restored: nat)
      modifies this
      ensures Value() == Restored(old(Value()), snaps, cfg)
      ensures restored == RestoredCount(old(Value()), snaps, cfg)
    {
      restored := 0;
      var i := 0;
      while i < |snaps|
        invariant 0 <= i <= |snaps|
        invariant restored + RestoredCount(Value(), snaps[i..], cfg) == RestoredCount(old(Value()), snaps, cfg)
        invariant Restored(Value(), snaps[i..], cfg) == Restored(old(Value()), snaps, cfg)
      {
        var snap := snaps[i];
        assert snaps[i..][0] == snap && snaps[i..][1..] == snaps[i + 1..];
        i := i + 1;
        if snap.source == "" { continue; }
        if snap.source in m {
          if !(m[snap.source].lastSeen < snap.profile.lastSeen) { continue; }
        } else if |m| >= cfg.maxSources {
          return;
        }
        var profile := snap.profile;
        if profile.firstSeen == 0 { profile := profile.(firstSeen := profile.lastSeen); }
        m := m[snap.source := profile];
        restored := restored + 1;
      }
    }

    method Evict(cutoff: int) returns (n: nat)
      modifies this
      ensures Value() == Evicted(old(Value()), cutoff) && n == |old(m)| - |m|
    {
      n := 0;
      var rest := m.Keys;
      ghost var (all, marks) := (m, dirty);
      while rest != {}
        invariant rest <= m.Keys && m.Keys <= all.Keys && n == |all| - |m|
        invariant m == Surviving(all, rest, cutoff) && dirty == Marked(all, marks, rest, cutoff)
        decreases |rest|
      {
        var k :| k in rest;
        VisitOne(all, marks, rest, cutoff, k);
        rest := rest - {k};
        if m[k].lastSeen < cutoff {
          assert (m - {k}).Keys == m.Keys - {k};
          m, dirty := m - {k}, dirty - {k};
          n := n + 1;
        }
      }
    }
  }
}
