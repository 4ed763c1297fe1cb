/** What the source cache holds, read off its history and the operation alone: each profile as a closed form of
    the observations counted for it, and what a trigger read, a flush, a restore and an eviction leave. */
module SourceHistory {
  import opened SourceBaseline
  import opened SourceBaselineRuns
  import MetricBaseline
  import opened MetricHistory

  function Part(q: Quad, m: Metric): real {
    match m
    case Pps => q.pps
    case Bps => q.bps
    case Syn => q.syn
    case Scan => q.scan
  }

  lemma GetIsPart(q: Quad, m: Metric)
    ensures q.Get(m) == Part(q, m)
  {
  }

  // ---------------------------------------------------------------- one observation

  predicate Trustworthy(o: Observation, cfg: Config) {
    !o.suspicious && o.rates.pps >= cfg.minUpdatePps
  }

  /** The profile an observation leaves, from the one before it, but for averages and peaks. */
  ghost predicate Counts(p: Profile, q: Profile, o: Observation, cfg: Config) {
    && q.obsCount == p.obsCount + 1 && q.windows == p.windows + 1 && q.firstSeen == p.firstSeen && q.lastSeen == o.now
    && (q.promoted <==> p.promoted || p.obsCount + 1 >= cfg.minObs)
    && q.global == p.global && q.effective == p.effective && q.confidence == Trust(q.obsCount, q.windows, o.age, cfg)
  }

  /** Four tenths for enough observations, four for a day of hourly windows, two for a week, each in proportion
      below that. */
  function Trust(observations: nat, windows: nat, age: real, cfg: Config): real {
    var wanted := (if cfg.minConfObs > 100 then cfg.minConfObs else 100) as real;
    (if observations as real >= wanted then 0.4 else 0.4 * (observations as real / wanted))
    + (if windows >= 24 then 0.4 else 0.4 * (windows as real / 24.0))
    + (if age >= 604800.0 then 0.2 else 0.2 * (age / 604800.0))
  }

  /** The average and the peak of one metric after an observation. */
  ghost predicate Follows(p: Profile, q: Profile, m: Metric, o: Observation, cfg: Config) {
    var (e, v, a) := (Part(p.ewma, m), Part(o.rates, m), if p.promoted then cfg.alphaPromoted else cfg.alpha);
    && Part(q.ewma, m) == (if p.obsCount == 0 then v else (1.0 - a) * e + a * v)
    && Part(q.peak, m) == if !p.promoted then (if q.promoted then Part(q.ewma, m) * 1.5 else Part(p.peak, m))
                          else if v > Part(p.peak, m) then v else Part(p.peak, m)
  }

  lemma LearnCounts(p: Profile, o: Observation, cfg: Config)
    ensures Counts(p, Learn(p, o, cfg), o, cfg)
  {
    var q := Learn(p, o, cfg);
    TrustIs(q.(confidence := p.confidence), o.age, cfg);
  }

  lemma TrustIs(p: Profile, age: real, cfg: Config)
    ensures ConfidenceOf(p, cfg, age) == Trust(p.obsCount, p.windows, age, cfg)
  {
    var (n, wanted) := (p.obsCount as real, (if cfg.minConfObs > 100 then cfg.minConfObs else 100) as real);
    if n >= wanted { AtLeastOne(n, wanted); } else { BelowOne(n, wanted); }
  }

  lemma AtLeastOne(n: real, d: real)
    requires d > 0.0 && n >= d
    ensures n / d >= 1.0
  {
  }

  lemma BelowOne(n: real, d: real)
    requires d > 0.0 && n < d
    ensures n / d < 1.0
  {
  }

  lemma AveragePart(p: Profile, o: Observation, cfg: Config, m: Metric)
    ensures var (e, v, a) := (Part(p.ewma, m), Part(o.rates, m), if p.promoted then cfg.alphaPromoted else cfg.alpha);
      Part(Averaged(p, o, cfg), m) == if p.obsCount == 0 then v else (1.0 - a) * e + a * v
  {
  }

  lemma PeakPart(p: Profile, o: Observation, cfg: Config, m: Metric, e: Quad)
    requires e == Averaged(p, o, cfg)
    ensures var (q, v) := (Learn(p, o, cfg), Part(o.rates, m));
      && q.ewma == e
      && Part(q.peak, m) == if !p.promoted then (if q.promoted then Part(e, m) * 1.5 else Part(p.peak, m))
                            else if v > Part(p.peak, m) then v else Part(p.peak, m)
  {
  }

  lemma LearnFollows(p: Profile, o: Observation, cfg: Config, m: Metric)
    ensures Follows(p, Learn(p, o, cfg), m, o, cfg)
  {
    AveragePart(p, o, cfg, m);
    PeakPart(p, o, cfg, m, Averaged(p, o, cfg));
  }

  /** An observation counts when it is not suspicious, is fast enough and, for a new source, finds room. Then it
      marks its source and changes its profile alone; otherwise nothing changes. */
  lemma ObservedMeans(s: State, o: Observation, cfg: Config, m: Metric)
    ensures var s' := Updated(s, o, cfg);
      if Trustworthy(o, cfg) && (o.source in s.m || |s.m| < cfg.maxSources) then
        && s'.m.Keys == s.m.Keys + {o.source} && s'.dirty == s.dirty + {o.source}
        && (forall k | k in s.m && k != o.source :: s'.m[k] == s.m[k])
        && var p := if o.source in s.m then s.m[o.source] else BLANK.(firstSeen := o.now);
        && Counts(p, s'.m[o.source], o, cfg) && Follows(p, s'.m[o.source], m, o, cfg)
      else s' == s
  {
    var p := if o.source in s.m then s.m[o.source] else BLANK.(firstSeen := o.now);
    LearnCounts(p, o, cfg);
    LearnFollows(p, o, cfg, m);
  }

  // ---------------------------------------------------------------- triggers

  /** The trigger in force is the promoted and confident source's peak with its margin where that is more, and
      the global one, or none at all, everywhere else. Both are recorded with that profile's metric, which is
      marked if that changed anything; nothing else changes. */
  lemma TriggerMeans(s: State, source: string, metric: Metric, trigger: real, cfg: Config, m: Metric)
    ensures var (s', effective) := Triggered(s, source, metric, trigger, cfg);
      var global := if trigger > 0.0 then trigger else 0.0;
      if source !in s.m then s' == s && effective == global
      else
        var (p, q, raised) := (s.m[source], s'.m[source], Part(s.m[source].peak, metric) * cfg.peakMultiplier);
        && effective == (if trigger > 0.0 && p.promoted && p.confidence >= cfg.minConfidence && raised > trigger
                         then raised else global)
        && s'.m.Keys == s.m.Keys && (forall k | k in s.m && k != source :: s'.m[k] == s.m[k])
        && q == p.(global := q.global, effective := q.effective)
        && Part(q.global, m) == (if m == metric then global else Part(p.global, m))
        && Part(q.effective, m) == (if m == metric then effective else Part(p.effective, m))
        && s'.dirty == if q == p then s.dirty else s.dirty + {source}
  {
  }

  // ---------------------------------------------------------------- flushes and evictions

  /** A flush hands out the marked live profiles as they are and leaves no marks. */
  lemma FlushMeans(s: State, k: string)
    ensures var (s', out) := Flushed(s);
      && s'.m == s.m && s'.dirty == {}
      && (k in out <==> k in s.dirty && k in s.m) && (k in out ==> out[k] == s.m[k])
  {
  }

  /** An eviction forgets the profiles last seen before the cutoff, with their marks, and no others. */
  lemma EvictMeans(s: State, cutoff: int, k: string)
    ensures var s' := Evicted(s, cutoff);
      && (k in s'.m <==> k in s.m && s.m[k].lastSeen >= cutoff) && (k in s'.m ==> s'.m[k] == s.m[k])
      && (k in s'.dirty <==> k in s.dirty && !(k in s.m && s.m[k].lastSeen < cutoff))
  {
  }

  // ---------------------------------------------------------------- restores

  /** The sources known before the i-th snapshot. */
  function Known(s: State, snaps: seq<Snapshot>, i: nat): set<string>
    requires i <= |snaps|
  {
    s.m.Keys + set j | 0 <= j < i && snaps[j].source != "" :: snaps[j].source
  }

  /** The i-th snapshot is of a new source for which there is no room. */
  predicate Stuck(s: State, snaps: seq<Snapshot>, i: nat, cfg: Config)
    requires i < |snaps|
  {
    var known := Known(s, snaps, i);
    snaps[i].source != "" && snaps[i].source !in known && |known| >= cfg.maxSources
  }

  /** The restore stops before the n-th snapshot. */
  ghost predicate Reaches(s: State, snaps: seq<Snapshot>, n: nat, cfg: Config) {
    && n <= |snaps| && (forall i | 0 <= i < n :: !Stuck(s, snaps, i, cfg)) && (n < |snaps| ==> Stuck(s, snaps, n, cfg))
  }

  /** The first of the source's newest snapshots, newer than what the cache has of it. */
  ghost predicate Newest(s: State, snaps: seq<Snapshot>, n: nat, i: nat)
    requires n <= |snaps|
  {
    && i < n && snaps[i].source != ""
    && (snaps[i].source in s.m ==> s.m[snaps[i].source].lastSeen < snaps[i].profile.lastSeen)
    && (forall j | 0 <= j < i && snaps[j].source == snaps[i].source ::
          snaps[j].profile.lastSeen < snaps[i].profile.lastSeen)
    && (forall j | i < j < n && snaps[j].source == snaps[i].source ::
          snaps[j].profile.lastSeen <= snaps[i].profile.lastSeen)
  }

  /** Nothing newer of the source is among the snapshots. */
  ghost predicate Unbeaten(s: State, snaps: seq<Snapshot>, n: nat, k: string)
    requires n <= |snaps|
  {
    k == "" || forall j | 0 <= j < n && snaps[j].source == k ::
      k in s.m && s.m[k].lastSeen >= snaps[j].profile.lastSeen
  }

  /** Dated by its last sighting if it has no first one. */
  function Entered(p: Profile): Profile {
    p.(firstSeen := if p.firstSeen == 0 then p.lastSeen else p.firstSeen)
  }

  lemma OneRestored(s: State, snap: Snapshot, k: string)
    ensures var (s', newer) := (RestoredOne(s, snap),
                                snap.source in s.m ==> s.m[snap.source].lastSeen < snap.profile.lastSeen);
      && s'.dirty == s.dirty && s'.m.Keys == s.m.Keys + (if snap.source == "" then {} else {snap.source})
      && (k in s.m && k != snap.source ==> s'.m[k] == s.m[k])
      && (snap.source != "" && newer ==> s'.m[snap.source] == Entered(snap.profile))
      && (!newer && k in s.m ==> s'.m[k] == s.m[k]) && (snap.source == "" ==> s' == s)
  {
  }

  /** The cache after the first i snapshots, all of which found room. */
  function Taken(s: State, snaps: seq<Snapshot>, i: nat): State
    requires i <= |snaps|
  {
    if i == 0 then s else RestoredOne(Taken(s, snaps, i - 1), snaps[i - 1])
  }

  lemma {:induction false} KnownIsTaken(s: State, snaps: seq<Snapshot>, i: nat)
    requires i <= |snaps|
    ensures Taken(s, snaps, i).m.Keys == Known(s, snaps, i)
  {
    if i > 0 {
      KnownIsTaken(s, snaps, i - 1);
      OneRestored(Taken(s, snaps, i - 1), snaps[i - 1], "");
    }
  }

  lemma StuckIff(s: State, snaps: seq<Snapshot>, i: nat, cfg: Config)
    requires i < |snaps|
    ensures NoRoom(Taken(s, snaps, i), snaps[i], cfg) <==> Stuck(s, snaps, i, cfg)
  {
    KnownIsTaken(s, snaps, i);
  }

  lemma {:induction false} RestoredFrom(s: State, snaps: seq<Snapshot>, n: nat, cfg: Config, i: nat)
    requires i <= n && Reaches(s, snaps, n, cfg)
    ensures Restored(Taken(s, snaps, i), snaps[i..], cfg) == Taken(s, snaps, n)
    decreases n - i
  {
    if i < |snaps| { StuckIff(s, snaps, i, cfg); }
    if i < n {
      assert !Stuck(s, snaps, i, cfg);
      assert snaps[i..][0] == snaps[i] && snaps[i..][1..] == snaps[i + 1..];
      RestoredFrom(s, snaps, n, cfg, i + 1);
    }
  }

  lemma RestoredIsTaken(s: State, snaps: seq<Snapshot>, n: nat, cfg: Config)
    requires Reaches(s, snaps, n, cfg)
    ensures Restored(s, snaps, cfg) == Taken(s, snaps, n)
  {
    RestoredFrom(s, snaps, n, cfg, 0);
    assert snaps[0..] == snaps;
  }

  lemma {:induction false} TakenKeeps(s: State, snaps: seq<Snapshot>, n: nat, k: string)
    requires n <= |snaps| && Unbeaten(s, snaps, n, k)
    ensures var s' := Taken(s, snaps, n);
      s'.dirty == s.dirty && (k in s'.m <==> k in s.m) && (k in s.m ==> s'.m[k] == s.m[k])
  {
    if n > 0 {
      TakenKeeps(s, snaps, n - 1, k);
      OneRestored(Taken(s, snaps, n - 1), snaps[n - 1], k);
    }
  }

  /** What the cache holds of a source is never newer than all it was given. */
  lemma {:induction false} TakenBelow(s: State, snaps: seq<Snapshot>, n: nat, k: string, t: int)
    requires n <= |snaps| && (k in s.m ==> s.m[k].lastSeen < t)
    requires forall j | 0 <= j < n && snaps[j].source == k :: snaps[j].profile.lastSeen < t
    ensures k in Taken(s, snaps, n).m ==> Taken(s, snaps, n).m[k].lastSeen < t
  {
    if n > 0 {
      TakenBelow(s, snaps, n - 1, k, t);
      OneRestored(Taken(s, snaps, n - 1), snaps[n - 1], k);
    }
  }

  lemma {:induction false} TakenIs(s: State, snaps: seq<Snapshot>, n: nat, i: nat)
    requires n <= |snaps| && Newest(s, snaps, n, i)
    ensures var (m, k) := (Taken(s, snaps, n).m, snaps[i].source);
      k in m && m[k] == Entered(snaps[i].profile)
  {
    OneRestored(Taken(s, snaps, n - 1), snaps[n - 1], snaps[i].source);
    if i == n - 1 {
      TakenBelow(s, snaps, i, snaps[i].source, snaps[i].profile.lastSeen);
    } else {
      TakenIs(s, snaps, n - 1, i);
    }
  }

  /** What nothing newer is restored for stays as it is. */
  lemma RestoreKeeps(s: State, snaps: seq<Snapshot>, n: nat, cfg: Config, k: string)
    requires Reaches(s, snaps, n, cfg) && Unbeaten(s, snaps, n, k)
    ensures var s' := Restored(s, snaps, cfg);
      s'.dirty == s.dirty && (k in s'.m <==> k in s.m) && (k in s.m ==> s'.m[k] == s.m[k])
  {
    RestoredIsTaken(s, snaps, n, cfg);
    TakenKeeps(s, snaps, n, k);
  }

  /** For every other source the first of its newest snapshots is taken over, dated by its last sighting if it
      has no first one. */
  lemma RestoreTakes(s: State, snaps: seq<Snapshot>, n: nat, cfg: Config, i: nat)
    requires Reaches(s, snaps, n, cfg) && Newest(s, snaps, n, i)
    ensures var (m, k) := (Restored(s, snaps, cfg).m, snaps[i].source);
      k in m && m[k] == Entered(snaps[i].profile)
  {
    RestoredIsTaken(s, snaps, n, cfg);
    TakenIs(s, snaps, n, i);
  }

  /** Newer than what the cache had of its source and than every earlier snapshot of it. */
  predicate Newer(s: State, snaps: seq<Snapshot>, i: nat)
    requires i < |snaps|
  {
    && snaps[i].source != ""
    && (snaps[i].source in s.m ==> s.m[snaps[i].source].lastSeen < snaps[i].profile.lastSeen)
    && forall j | 0 <= j < i && snaps[j].source == snaps[i].source ::
         snaps[j].profile.lastSeen < snaps[i].profile.lastSeen
  }

  /** Of snapshots from the i-th to the n-th, how many are newer. */
  function NewerCount(s: State, snaps: seq<Snapshot>, i: nat, n: nat): nat
    requires i <= n <= |snaps|
    decreases n - i
  {
    if i == n then 0 else (if Newer(s, snaps, i) then 1 else 0) + NewerCount(s, snaps, i + 1, n)
  }

  lemma {:induction false} TakenAbove(s: State, snaps: seq<Snapshot>, n: nat, k: string, j: nat)
    requires n <= |snaps|
    ensures var m := Taken(s, snaps, n).m;
      && (k in s.m ==> k in m && m[k].lastSeen >= s.m[k].lastSeen)
      && (j < n && snaps[j].source == k && k != "" ==> k in m && m[k].lastSeen >= snaps[j].profile.lastSeen)
  {
    if n > 0 {
      TakenAbove(s, snaps, n - 1, k, j);
      OneRestored(Taken(s, snaps, n - 1), snaps[n - 1], k);
    }
  }

  lemma AcceptsIff(s: State, snaps: seq<Snapshot>, i: nat)
    requires i < |snaps|
    ensures Accepts(Taken(s, snaps, i), snaps[i]) <==> Newer(s, snaps, i)
  {
    var (k, t) := (snaps[i].source, snaps[i].profile.lastSeen);
    TakenAbove(s, snaps, i, k, 0);
    if Newer(s, snaps, i) {
      TakenBelow(s, snaps, i, k, t);
    } else if j :| 0 <= j < i && snaps[j].source == k && snaps[j].profile.lastSeen >= t {
      TakenAbove(s, snaps, i, k, j);
    }
  }

  lemma {:induction false} CountedFrom(s: State, snaps: seq<Snapshot>, n: nat, cfg: Config, i: nat)
    requires i <= n && Reaches(s, snaps, n, cfg)
    ensures RestoredCount(Taken(s, snaps, i), snaps[i..], cfg) == NewerCount(s, snaps, i, n)
    decreases n - i
  {
    if i < |snaps| { StuckIff(s, snaps, i, cfg); }
    if i < n {
      assert !Stuck(s, snaps, i, cfg);
      assert snaps[i..][0] == snaps[i] && snaps[i..][1..] == snaps[i + 1..];
      AcceptsIff(s, snaps, i);
      CountedFrom(s, snaps, n, cfg, i + 1);
    }
  }

  /** The answer counts exactly the snapshots newer than all before them. */
  lemma RestoreCounts(s: State, snaps: seq<Snapshot>, n: nat, cfg: Config)
    requires Reaches(s, snaps, n, cfg)
    ensures RestoredCount(s, snaps, cfg) == NewerCount(s, snaps, 0, n)
  {
    CountedFrom(s, snaps, n, cfg, 0);
    assert snaps[0..] == snaps;
  }

  // ---------------------------------------------------------------- whole histories

  /** The observations counted for a live source since it was last absent. */
  function Lifetime(ops: seq<Op>, cfg: Config, source: string): seq<Observation> {
    if ops == [] || source !in After(ops, cfg).s.m then []
    else
      var (before, op) := (Lifetime(ops[..|ops| - 1], cfg, source), ops[|ops| - 1]);
      if op.Learned? && op.o.source == source && Trustworthy(op.o, cfg) then before + [op.o] else before
  }

  function Rates(os: seq<Observation>, m: Metric): (xs: seq<real>)
    ensures |xs| == |os|
  {
    seq(|os|, i requires 0 <= i < |os| => Part(os[i].rates, m))
  }

  /** The learning rates of the source baselines, for the weights of their history. */
  function Settings(cfg: Config): MetricBaseline.Config {
    MetricBaseline.Config(cfg.alpha, cfg.alphaPromoted, cfg.minObs, 1, 1.0, 1.0)
  }

  /** A profile that has learned from exactly these observations. */
  ghost predicate Tells(p: Profile, os: seq<Observation>, cfg: Config) {
    && os != [] && p.obsCount == |os| && p.windows == |os| && (p.promoted <==> |os| >= cfg.minObs)
    && p.firstSeen == os[0].now && p.lastSeen == os[|os| - 1].now
    && p.confidence == Trust(|os|, |os|, os[|os| - 1].age, cfg)
  }

  ghost predicate Averages(p: Profile, os: seq<Observation>, cfg: Config, m: Metric) {
    Part(p.ewma, m) == Mean(Settings(cfg), Rates(os, m))
  }

  lemma RatesNext(os: seq<Observation>, o: Observation, m: Metric)
    ensures Rates(os + [o], m) == Rates(os, m) + [Part(o.rates, m)]
  {
  }

  lemma TellsNext(p: Profile, q: Profile, os: seq<Observation>, o: Observation, cfg: Config)
    requires if os == [] then p == BLANK.(firstSeen := o.now) else Tells(p, os, cfg)
    requires Counts(p, q, o, cfg)
    ensures Tells(q, os + [o], cfg)
  {
  }

  lemma AveragesNext(p: Profile, q: Profile, os: seq<Observation>, o: Observation, cfg: Config, m: Metric)
    requires if os == [] then p == BLANK.(firstSeen := o.now) else Tells(p, os, cfg) && Averages(p, os, cfg, m)
    requires Follows(p, q, m, o, cfg)
    ensures Averages(q, os + [o], cfg, m)
  {
    var (r, e, v) := (Rate(Settings(cfg), |os|), Part(p.ewma, m), Part(o.rates, m));
    RatesNext(os, o, m);
    if os == [] {
      assert Rates(os, m) == [];
      MeanNext(Settings(cfg), [], v, 1.0, 0.0, 0.0);
      assert [] + [v] == Rates(os + [o], m);
    } else {
      MeanNext(Settings(cfg), Rates(os, m), v, r, 1.0 - r, e);
    }
  }

  lemma OtherKept(w: World, op: Op, cfg: Config, source: string)
    requires source in Next(w, op, cfg).s.m && !op.Restore?
    requires !(op.Learned? && op.o.source == source && Trustworthy(op.o, cfg))
    ensures source in w.s.m
    ensures var (p, q) := (w.s.m[source], Next(w, op, cfg).s.m[source]);
      q == p.(global := q.global, effective := q.effective)
  {
  }

  ghost predicate NoRestore(ops: seq<Op>) {
    forall i | 0 <= i < |ops| :: !ops[i].Restore?
  }

  /** A source that was never restored has learned from exactly the observations counted since it was last
      absent: its averages are the weighted means of their rates, and its counts and times are theirs. */
  lemma {:induction false} SourceIsItsHistory(ops: seq<Op>, cfg: Config, source: string, m: Metric)
    requires NoRestore(ops) && source in After(ops, cfg).s.m
    ensures var (p, os) := (After(ops, cfg).s.m[source], Lifetime(ops, cfg, source));
      Tells(p, os, cfg) && Averages(p, os, cfg, m)
  {
    var (before, op) := (ops[..|ops| - 1], ops[|ops| - 1]);
    var w := After(before, cfg);
    if source in w.s.m { SourceIsItsHistory(before, cfg, source, m); }
    if op.Learned? && op.o.source == source && Trustworthy(op.o, cfg) {
      var p := if source in w.s.m then w.s.m[source] else BLANK.(firstSeen := op.o.now);
      var q := After(ops, cfg).s.m[source];
      ObservedMeans(w.s, op.o, cfg, m);
      TellsNext(p, q, Lifetime(before, cfg, source), op.o, cfg);
      AveragesNext(p, q, Lifetime(before, cfg, source), op.o, cfg, m);
    } else {
      OtherKept(w, op, cfg, source);
    }
  }
}
