/** Sliding-window detection: sample windows compacted in place, a refractory period per key, and a table of
    detections in effect. Times are nanosecond counts; 0 is the zero time, which means "never". */
module Detection {
  import opened Text

  const SECOND: int := 1_000_000_000
  const MINUTE: int := 60 * SECOND

  datatype Sample = Sample(at: int, count: int)

  datatype Rule = Rule(id: string, resourceRef: string, window: int, threshold: int, sustained: bool)

  /** A rule met by a source. `matches` says that the rule has an id and that its subject and resource
      match; `key` is the grouping key the rule gives this source. */
  datatype Observation = Observation(rule: Rule, matches: bool, key: string, sourceId: string, count: int, now: int)

  datatype ActiveDetection = ActiveDetection(
    ruleId: string, key: string, sourceId: string, resourceRef: string, count: int, windowSeconds: int,
    observedAt: int, expiresAt: int)

  datatype Fired = Fired(key: string, sourceId: string, count: int, window: int, observedAt: int)

  datatype State = State(windows: map<string, seq<Sample>>, lastFire: map<string, int>,
      active: map<string, ActiveDetection>)

  const EMPTY: State := State(map[], map[], map[])

  // ---------------------------------------------------------------- one observation, on values

  function Window(r: Rule): (w: int)
    ensures w > 0
  {
    if r.window <= 0 then MINUTE else r.window
  }

  function Threshold(r: Rule): (t: int)
    ensures t > 0
  {
    if r.threshold <= 0 then 1 else r.threshold
  }

  /** Samples at or after the cutoff, in order. */
  function Recent(samples: seq<Sample>, cutoff: int): (r: seq<Sample>)
    ensures |r| <= |samples|
  {
    if samples == [] then []
    else
      var (before, last) := (Recent(samples[..|samples| - 1], cutoff), samples[|samples| - 1]);
      if last.at < cutoff then before else before + [last]
  }

  function Total(samples: seq<Sample>): int {
    if samples == [] then 0 else Total(samples[..|samples| - 1]) + samples[|samples| - 1].count
  }

  lemma RecentSnoc(samples: seq<Sample>, s: Sample, cutoff: int)
    ensures Recent(samples + [s], cutoff) == if s.at < cutoff then Recent(samples, cutoff)
      else Recent(samples, cutoff) + [s]
  {
    assert (samples + [s])[..|samples|] == samples;
  }

  lemma TotalSnoc(samples: seq<Sample>, s: Sample)
    ensures Total(samples + [s]) == Total(samples) + s.count
  {
    assert (samples + [s])[..|samples|] == samples;
  }

  /** A quarter of the window, between two and five seconds. */
  function Tolerance(window: int): (t: int)
    requires window > 0
    ensures 2 * SECOND <= t <= 5 * SECOND
    ensures 8 * SECOND <= window <= 20 * SECOND ==> 4 * t <= window < 4 * t + 4
  {
    if window / 4 < 2 * SECOND then 2 * SECOND else if window / 4 > 5 * SECOND then 5 * SECOND else window / 4
  }

  predicate AtEdge(s: Sample, window: int, now: int)
    requires window > 0
  {
    s.count > 0 && now - window - Tolerance(window) <= s.at <= now - window
  }

  /** Some sample lies at the far edge of the window, within the tolerance. */
  predicate Covers(samples: seq<Sample>, window: int, now: int)
    requires window > 0
  {
    exists i :: 0 <= i < |samples| && AtEdge(samples[i], window, now)
  }

  predicate NeedsFullWindow(r: Rule) {
    r.sustained && r.window > 0
  }

  predicate Counted(o: Observation) {
    o.matches && o.count > 0
  }

  function WindowOf(s: State, key: string): seq<Sample> {
    if key in s.windows then s.windows[key] else []
  }

  predicate Refractory(s: State, key: string, window: int, now: int) {
    key in s.lastFire && s.lastFire[key] != 0 && now - s.lastFire[key] < window
  }

  function Detected(o: Observation, total: int): ActiveDetection {
    ActiveDetection(o.rule.id, o.key, o.sourceId, o.rule.resourceRef, total, Window(o.rule) / SECOND, o.now,
      o.now + Window(o.rule))
  }

  /** The key's window with the observation appended. */
  function Samples(s: State, o: Observation): seq<Sample> {
    WindowOf(s, o.key) + [Sample(o.now, o.count)]
  }

  function Kept(s: State, o: Observation): seq<Sample> {
    Recent(Samples(s, o), o.now - Window(o.rule))
  }

  /** A sustained rule looks at the far edge of the window before old samples are dropped. */
  predicate Full(s: State, o: Observation) {
    NeedsFullWindow(o.rule) ==> Covers(Samples(s, o), Window(o.rule), o.now)
  }

  predicate Firing(s: State, o: Observation) {
    Total(Kept(s, o)) >= Threshold(o.rule) && Full(s, o) && !Refractory(s, o.key, Window(o.rule), o.now)
  }

  function Fire(s: State, o: Observation, total: int): (State, Option<Fired>) {
    (s.(lastFire := s.lastFire[o.key := o.now], active := s.active[o.key := Detected(o, total)]),
     Some(Fired(o.key, o.sourceId, total, Window(o.rule), o.now)))
  }

  function Observe(s: State, o: Observation): (State, Option<Fired>) {
    if !Counted(o) then (s, None)
    else
      var s1 := s.(windows := s.windows[o.key := Kept(s, o)]);
      if Firing(s, o) then Fire(s1, o, Total(Kept(s, o))) else (s1, None)
  }

  predicate Expired(d: ActiveDetection, now: int) {
    d.expiresAt != 0 && now >= d.expiresAt
  }

  predicate IsFact(d: ActiveDetection, sourceId: string, named: string -> bool) {
    (sourceId == "" || d.sourceId == sourceId) && named(d.ruleId)
  }

  /** A facts query also forgets the expired detections, of every source. */
  function Purge(s: State, now: int): State {
    s.(active := map k | k in s.active && !Expired(s.active[k], now) :: s.active[k])
  }

  /** A query that has yet to visit `rest`: what is still there, and what it reports so far. */
  function Unexpired(all: map<string, ActiveDetection>, rest: set<string>, now: int): map<string, ActiveDetection> {
    map k | k in all && (k in rest || !Expired(all[k], now)) :: all[k]
  }

  function FactKeys(active: map<string, ActiveDetection>, rest: set<string>, sourceId: string,
      named: string -> bool): set<string> {
    set k | k in active && k !in rest && IsFact(active[k], sourceId, named)
  }

  lemma FactNext(all: map<string, ActiveDetection>, rest: set<string>, now: int, sourceId: string,
      named: string -> bool, k: string)
    requires k in rest && rest <= all.Keys
    ensures var (active, later) := (Unexpired(all, rest, now), rest - {k});
      && k in active && active[k] == all[k] && k !in FactKeys(active, rest, sourceId, named)
      && Unexpired(all, later, now) == (if Expired(all[k], now) then active - {k} else active)
      && FactKeys(Unexpired(all, later, now), later, sourceId, named)
         == FactKeys(active, rest, sourceId, named)
            + if !Expired(all[k], now) && IsFact(all[k], sourceId, named) then {k} else {}
  {
  }

  // ---------------------------------------------------------------- the engine, in place

  lemma RecentNext(all: seq<Sample>, i: nat, cutoff: int)
    requires i < |all|
    ensures Recent(all[..i + 1], cutoff) == Recent(all[..i], cutoff) + if all[i].at < cutoff then [] else [all[i]]
    ensures Total(Recent(all[..i + 1], cutoff))
         == Total(Recent(all[..i], cutoff)) + if all[i].at < cutoff then 0 else all[i].count
  {
    assert all[..i + 1] == all[..i] + [all[i]];
    RecentSnoc(all[..i], all[i], cutoff);
    TotalSnoc(Recent(all[..i], cutoff), all[i]);
  }

  /** Drop the samples before the cutoff, moving the others to the front of the same array. */
  method Compact(samples: array<Sample>, cutoff: int) returns (kept: nat, total: int)
    modifies samples
    ensures kept <= samples.Length
    ensures samples[..kept] == Recent(old(samples[..]), cutoff)
    ensures total == Total(Recent(old(samples[..]), cutoff))
  {
    kept, total := 0, 0;
    ghost var all := samples[..];
    var i := 0;
    while i < samples.Length
      invariant kept <= i <= samples.Length
      invariant samples[..kept] == Recent(all[..i], cutoff)
      invariant forall j | i <= j < samples.Length :: samples[j] == all[j]
      invariant total == Total(Recent(all[..i], cutoff))
    {
      ghost var before := samples[..kept];
      var sample := samples[i];
      RecentNext(all, i, cutoff);
      if sample.at >= cutoff {
        total := total + sample.count;
        samples[kept] := sample;
        kept := kept + 1;
        assert samples[..kept] == before + [sample];
      }
      i := i + 1;
    }
    assert all[..i] == all;
  }

  method Appended(previous: seq<Sample>, sample: Sample) returns (samples: array<Sample>)
    ensures fresh(samples) && samples[..] == previous + [sample]
  {
    var n := |previous|;
    samples := new Sample[n + 1](i => if 0 <= i < n then previous[i] else sample);
  }

  method CoversWindow(samples: array<Sample>, window: int, now: int) returns (covers: bool)
    requires window > 0
    ensures covers == Covers(samples[..], window, now)
  {
    var i := 0;
    while i < samples.Length
      invariant 0 <= i <= samples.Length
      invariant forall j | 0 <= j < i :: !AtEdge(samples[j], window, now)
    {
      if samples[i].count > 0 && samples[i].at <= now - window && samples[i].at >= now - window - Tolerance(window) {
        assert AtEdge(samples[..][i], window, now);
        return true;
      }
      i := i + 1;
    }
    return false;
  }

  /** Append the observation, check the window's far edge, then compact. */
  method Measure(o: Observation, previous: seq<Sample>) returns (kept: seq<Sample>, total: int, full: bool)
    ensures var (samples, window) := (previous + [Sample(o.now, o.count)], Window(o.rule));
      && kept == Recent(samples, o.now - window) && total == Total(kept)
      && full == (NeedsFullWindow(o.rule) ==> Covers(samples, window, o.now))
  {
    var window := Window(o.rule);
    var samples := Appended(previous, Sample(o.now, o.count));
    full := true;
    if NeedsFullWindow(o.rule) { full := CoversWindow(samples, window, o.now); }
    var n;
    n, total := Compact(samples, o.now - window);
    kept := samples[..n];
  }

  class ReactionEngine {
    var windows: map<string, seq<Sample>>
    var lastFire: map<string, int>
    var active: map<string, ActiveDetection>

    ghost function Value(): State
      reads this
    {
      State(windows, lastFire, active)
    }

    constructor ()
      ensures Value() == EMPTY
    {
      windows, lastFire, active := map[], map[], map[];
    }

    method ObserveDetection(o: Observation) returns (fired: Option<Fired>)
      modifies this
      ensures (Value(), fired) == Observe(old(Value()), o)
    {
      if !o.matches || o.count <= 0 { return None; }
      var window := Window(o.rule);
      var kept, total, full := Measure(o, if o.key in windows then windows[o.key] else []);
      windows := windows[o.key := kept];
      if total < Threshold(o.rule) || !full { return None; }
      if o.key in lastFire && lastFire[o.key] != 0 && o.now - lastFire[o.key] < window { return None; }
      fired := Record(o, total);
    }

    method Record(o: Observation, total: int) returns (fired: Option<Fired>)
      modifies this
      ensures (Value(), fired) == Fire(old(Value()), o, total)
    {
      lastFire := lastFire[o.key := o.now];
      active := active[o.key := Detected(o, total)];
      return Some(Fired(o.key, o.sourceId, total, Window(o.rule), o.now));
    }

    /** The keys of the detections in effect for a source, `""` standing for every source; `named` tells
        which rule ids yield a fact name. */
    method DetectionFacts(sourceId: string, now: int, named: string -> bool) returns (facts: set<string>, count: nat)
      modifies this`active
      ensures Value() == Purge(old(Value()), now)
      ensures facts
           == set k | k in active && (sourceId == "" || active[k].sourceId == sourceId) && named(active[k].ruleId)
      ensures count == |facts|
    {
      facts, count := CollectFacts(sourceId, now, named);
    }

    method CollectFacts(sourceId: string, now: int, named: string -> bool) returns (facts: set<string>, count: nat)
      modifies this`active
      ensures Value() == Purge(old(Value()), now)
      ensures facts == set k | k in active && IsFact(active[k], sourceId, named)
      ensures count == |facts|
    {
      facts, count := {}, 0;
      var rest := active.Keys;
      while rest != {}
        invariant rest <= active.Keys
        invariant active == Unexpired(old(active), rest, now) && facts == FactKeys(active, rest, sourceId, named)
        invariant count == |facts|
        decreases |rest|
      {
        var k :| k in rest;
        FactNext(old(active), rest, now, sourceId, named, k);
        rest := rest - {k};
        if Expired(active[k], now) {
          active := active - {k};
        } else if IsFact(active[k], sourceId, named) {
          facts, count := facts + {k}, count + 1;
        }
      }
    }
  }
}
