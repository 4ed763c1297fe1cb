/** What the detection engine says, read off its history alone: which observation fires, what the fire reports,
    and which detections a facts query finds. */
module DetectionMeaning {
  import opened Text
  import opened Detection
  import opened DetectionRuns

  // ---------------------------------------------------------------- the history, read directly

  /** The rule's window, a minute when it names none. */
  function Length(r: Rule): (w: int)
    ensures w > 0
  {
    if r.window > 0 then r.window else 60_000_000_000
  }

  /** The rule's threshold, one observation when it names none. */
  function Needed(r: Rule): (n: int)
    ensures n > 0
  {
    if r.threshold > 0 then r.threshold else 1
  }

  /** An observation that counts for the key. */
  predicate Counts(op: Op, key: string) {
    op.Observed? && op.o.matches && op.o.count > 0 && op.o.key == key
  }

  /** The counts observed for the key from a moment on. */
  function Sum(ops: seq<Op>, key: string, start: int): int {
    if ops == [] then 0
    else
      var (before, op) := (Sum(ops[..|ops| - 1], key, start), ops[|ops| - 1]);
      if Counts(op, key) && op.o.now >= start then before + op.o.count else before
  }

  predicate OneLength(ops: seq<Op>, key: string, w: int) {
    forall i | 0 <= i < |ops| && Counts(ops[i], key) :: Length(ops[i].o.rule) == w
  }

  /** The observation fires where it stands in the history. */
  predicate FiredAt(ops: seq<Op>, i: nat, key: string)
    requires i < |ops|
  {
    ops[i].Observed? && ops[i].o.key == key && Observe(After(ops[..i]), ops[i].o).1.Some?
  }

  ghost predicate LatestFire(ops: seq<Op>, key: string, i: nat) {
    i < |ops| && FiredAt(ops, i, key) && forall j | i < j < |ops| :: !FiredAt(ops, j, key)
  }

  /** A quarter of the window past its far edge, but no more than five seconds and no less than two. */
  predicate NearEdge(at: int, w: int, now: int) {
    var past := now - w - at;
    past >= 0 && (past <= 2_000_000_000 || (past <= 5_000_000_000 && 4 * past <= w))
  }

  /** An earlier observation of the key near the far edge, that no observation since has dropped. */
  ghost predicate Reaches(ops: seq<Op>, key: string, w: int, now: int) {
    exists i :: 0 <= i < |ops| && Counts(ops[i], key) && NearEdge(ops[i].o.now, w, now)
      && forall j | 0 <= j < |ops| && Counts(ops[j], key) :: ops[i].o.now >= ops[j].o.now - w
  }

  /** No earlier fire of the key is less than a window ago. */
  ghost predicate Rested(ops: seq<Op>, key: string, w: int, now: int) {
    forall i | 0 <= i < |ops| && FiredAt(ops, i, key) :: now - ops[i].o.now >= w
  }

  // ---------------------------------------------------------------- which observation fires

  lemma {:induction false} SumIsTotal(ops: seq<Op>, key: string, start: int)
    ensures Total(Recent(History(ops, key), start)) == Sum(ops, key, start)
  {
    if ops != [] {
      var (before, op) := (ops[..|ops| - 1], ops[|ops| - 1]);
      SumIsTotal(before, key, start);
      if Counts(op, key) {
        var s := Sample(op.o.now, op.o.count);
        RecentSnoc(History(before, key), s, start);
        TotalSnoc(Recent(History(before, key), start), s);
      }
    }
  }

  lemma {:induction false} SampleIff(ops: seq<Op>, key: string, s: Sample)
    ensures s in History(ops, key)
        <==> exists i :: 0 <= i < |ops| && Counts(ops[i], key) && s == Sample(ops[i].o.now, ops[i].o.count)
  {
    if ops != [] {
      var (before, op) := (ops[..|ops| - 1], ops[|ops| - 1]);
      SampleIff(before, key, s);
      if i :| 0 <= i < |ops| && Counts(ops[i], key) && s == Sample(ops[i].o.now, ops[i].o.count) {
        if i < |before| { assert Counts(before[i], key); }
      }
      if i :| 0 <= i < |before| && Counts(before[i], key) && s == Sample(before[i].o.now, before[i].o.count) {
        assert Counts(ops[i], key);
      }
    }
  }

  lemma {:induction false} LatestIsLatest(ops: seq<Op>, key: string, i: nat)
    requires Clocked(ops) && i < |ops| && Counts(ops[i], key)
    ensures History(ops, key) != [] && ops[i].o.now <= Latest(History(ops, key))
    ensures exists j :: 0 <= j < |ops| && Counts(ops[j], key) && ops[j].o.now == Latest(History(ops, key))
  {
    var (before, op) := (ops[..|ops| - 1], ops[|ops| - 1]);
    if Counts(op, key) {
      LatestSnoc(History(before, key), Sample(op.o.now, op.o.count));
      assert TimeOf(ops[i]) <= TimeOf(ops[|ops| - 1]);
    } else {
      LatestIsLatest(before, key, i);
      var j :| 0 <= j < |before| && Counts(before[j], key) && before[j].o.now == Latest(History(before, key));
      assert Counts(ops[j], key);
    }
  }

  lemma EdgeIff(s: Sample, w: int, now: int)
    requires w > 0
    ensures AtEdge(s, w, now) <==> s.count > 0 && NearEdge(s.at, w, now)
  {
  }

  lemma EdgeReaches(ops: seq<Op>, key: string, w: int, now: int)
    requires Clocked(ops) && w > 0
    ensures EdgeSample(History(ops, key), Latest(History(ops, key)), w, now) <==> Reaches(ops, key, w, now)
  {
    var latest := Latest(History(ops, key));
    if s :| s in History(ops, key) && AtEdge(s, w, now) && s.at >= latest - w {
      SampleIff(ops, key, s);
      var i :| 0 <= i < |ops| && Counts(ops[i], key) && s == Sample(ops[i].o.now, ops[i].o.count);
      EdgeIff(s, w, now);
      forall j | 0 <= j < |ops| && Counts(ops[j], key) ensures ops[i].o.now >= ops[j].o.now - w {
        LatestIsLatest(ops, key, j);
      }
    }
    if Reaches(ops, key, w, now) { ReachesEdge(ops, key, w, now); }
  }

  lemma ReachesEdge(ops: seq<Op>, key: string, w: int, now: int)
    requires Clocked(ops) && w > 0 && Reaches(ops, key, w, now)
    ensures EdgeSample(History(ops, key), Latest(History(ops, key)), w, now)
  {
    var i :| 0 <= i < |ops| && Counts(ops[i], key) && NearEdge(ops[i].o.now, w, now)
      && forall j | 0 <= j < |ops| && Counts(ops[j], key) :: ops[i].o.now >= ops[j].o.now - w;
    var s := Sample(ops[i].o.now, ops[i].o.count);
    SampleIff(ops, key, s);
    LatestIsLatest(ops, key, i);
    EdgeIff(s, w, now);
  }

  lemma FiredPrefix(ops: seq<Op>, i: nat, key: string)
    requires ops != [] && i < |ops| - 1
    ensures FiredAt(ops[..|ops| - 1], i, key) == FiredAt(ops, i, key)
  {
    assert ops[..|ops| - 1][..i] == ops[..i];
  }

  /** Some fire of the key at that time. */
  ghost predicate FiredOnce(ops: seq<Op>, key: string, t: int) {
    exists i :: 0 <= i < |ops| && FiredAt(ops, i, key) && ops[i].o.now == t
  }

  lemma FiredOnceLess(ops: seq<Op>, key: string, t: int, i: nat)
    requires i < |ops| && FiredAt(ops, i, key) && ops[i].o.now == t
    ensures FiredOnce(ops[..|ops| - 1], key, t) || (FiredAt(ops, |ops| - 1, key) && ops[|ops| - 1].o.now == t)
  {
    if i < |ops| - 1 { FiredEarlier(ops, key, t, i); }
  }

  lemma FiredEarlier(ops: seq<Op>, key: string, t: int, i: nat)
    requires i < |ops| - 1 && FiredAt(ops, i, key) && ops[i].o.now == t
    ensures FiredOnce(ops[..|ops| - 1], key, t)
  {
    FiredPrefix(ops, i, key);
    assert ops[..|ops| - 1][i] == ops[i];
  }

  lemma FiredOnceMore(ops: seq<Op>, key: string, t: int)
    requires ops != [] && FiredOnce(ops[..|ops| - 1], key, t)
    ensures FiredOnce(ops, key, t)
  {
    var before := ops[..|ops| - 1];
    var i :| 0 <= i < |before| && FiredAt(before, i, key) && before[i].o.now == t;
    FiredPrefix(ops, i, key);
  }

  lemma FiredLast(ops: seq<Op>, key: string)
    requires ops != []
    ensures FiredAt(ops, |ops| - 1, key) <==> Fires(After(ops[..|ops| - 1]), ops[|ops| - 1], key)
  {
  }

  lemma {:induction false} FireTimeIff(ops: seq<Op>, key: string, t: int)
    ensures t in FireTimes(ops, key) <==> FiredOnce(ops, key, t)
  {
    if ops != [] {
      FireTimeIff(ops[..|ops| - 1], key, t);
      if i :| 0 <= i < |ops| && FiredAt(ops, i, key) && ops[i].o.now == t { FiredOnceLess(ops, key, t, i); }
      if FiredOnce(ops[..|ops| - 1], key, t) { FiredOnceMore(ops, key, t); }
      FiredLast(ops, key);
    }
  }

  lemma RestedIff(ops: seq<Op>, key: string, w: int, now: int)
    ensures FiredWithin(FireTimes(ops, key), w, now) <==> !Rested(ops, key, w, now)
  {
    var fires := FireTimes(ops, key);
    if i :| 0 <= i < |fires| && now - fires[i] < w {
      FireTimeIff(ops, key, fires[i]);
    }
    if i :| 0 <= i < |ops| && FiredAt(ops, i, key) && now - ops[i].o.now < w {
      FireTimeIff(ops, key, ops[i].o.now);
      var j :| 0 <= j < |fires| && fires[j] == ops[i].o.now;
    }
  }

  lemma HitsIff(op: Op, key: string)
    ensures Hits(op, key) <==> Counts(op, key)
  {
  }

  lemma LengthFixed(ops: seq<Op>, key: string, r: Rule)
    requires OneLength(ops, key, Length(r))
    ensures FixedWindow(ops, key, Window(r)) && Window(r) == Length(r)
  {
    forall i | 0 <= i < |ops| && Hits(ops[i], key) ensures Window(ops[i].o.rule) == Window(r) {
      assert Counts(ops[i], key);
    }
  }

  lemma SameLimits(r: Rule)
    ensures Window(r) == Length(r) && Threshold(r) == Needed(r)
    ensures NeedsFullWindow(r) <==> r.sustained && r.window > 0
  {
  }

  lemma EdgeReachesNext(ops: seq<Op>, o: Observation)
    requires Clocked(ops + [Observed(o)])
    ensures EdgeSample(History(ops, o.key), Latest(History(ops, o.key)), Window(o.rule), o.now)
        <==> Reaches(ops, o.key, Window(o.rule), o.now)
  {
    ClockedPrefix(ops, Observed(o));
    EdgeReaches(ops, o.key, Window(o.rule), o.now);
  }

  /** The counts kept, from the counts of the history. */
  lemma KeptGiven(s: State, o: Observation, history: seq<Sample>, latest: int, sum: int)
    requires WindowOf(s, o.key) == Recent(history, latest - Window(o.rule)) && latest <= o.now
    requires Total(Recent(history, o.now - Window(o.rule))) == sum
    ensures Total(Kept(s, o)) == sum + o.count
  {
    KeptIsRecent(s, o, history, latest);
    RecentSnoc(history, Sample(o.now, o.count), o.now - Window(o.rule));
    TotalSnoc(Recent(history, o.now - Window(o.rule)), Sample(o.now, o.count));
  }

  lemma FiresGiven(s: State, o: Observation, history: seq<Sample>, latest: int, fires: seq<int>, sum: int)
    requires Counted(o) && WindowOf(s, o.key) == Recent(history, latest - Window(o.rule)) && latest <= o.now
    requires Refractory(s, o.key, Window(o.rule), o.now) <==> FiredWithin(fires, Window(o.rule), o.now)
    requires Total(Recent(history, o.now - Window(o.rule))) == sum
    ensures Observe(s, o).1.Some? <==>
        sum + o.count >= Threshold(o.rule)
        && (NeedsFullWindow(o.rule) ==> EdgeSample(history, latest, Window(o.rule), o.now))
        && !FiredWithin(fires, Window(o.rule), o.now)
  {
    KeptGiven(s, o, history, latest, sum);
    FullIff(s, o, history, latest);
  }

  lemma FiresSummed(ops: seq<Op>, o: Observation)
    requires Clocked(ops + [Observed(o)]) && FixedWindow(ops, o.key, Window(o.rule)) && Counted(o)
    ensures var history := History(ops, o.key);
      Observe(After(ops), o).1.Some? <==>
        Sum(ops, o.key, o.now - Window(o.rule)) + o.count >= Threshold(o.rule)
        && (NeedsFullWindow(o.rule) ==> EdgeSample(history, Latest(history), Window(o.rule), o.now))
        && !FiredWithin(FireTimes(ops, o.key), Window(o.rule), o.now)
  {
    var history := History(ops, o.key);
    StateBefore(ops, o);
    SumIsTotal(ops, o.key, o.now - Window(o.rule));
    FiresGiven(After(ops), o, history, Latest(history), FireTimes(ops, o.key),
               Sum(ops, o.key, o.now - Window(o.rule)));
  }

  lemma FiresReaching(ops: seq<Op>, o: Observation)
    requires Clocked(ops + [Observed(o)]) && FixedWindow(ops, o.key, Window(o.rule)) && Counted(o)
    ensures Observe(After(ops), o).1.Some? <==>
      && Sum(ops, o.key, o.now - Window(o.rule)) + o.count >= Threshold(o.rule)
      && (NeedsFullWindow(o.rule) ==> Reaches(ops, o.key, Window(o.rule), o.now))
      && !FiredWithin(FireTimes(ops, o.key), Window(o.rule), o.now)
  {
    FiresSummed(ops, o);
    EdgeReachesNext(ops, o);
  }

  lemma FiresByLength(ops: seq<Op>, o: Observation)
    requires Clocked(ops + [Observed(o)]) && OneLength(ops, o.key, Length(o.rule)) && Counted(o)
    ensures Observe(After(ops), o).1.Some? <==>
      && Sum(ops, o.key, o.now - Window(o.rule)) + o.count >= Threshold(o.rule)
      && (NeedsFullWindow(o.rule) ==> Reaches(ops, o.key, Window(o.rule), o.now))
      && !FiredWithin(FireTimes(ops, o.key), Window(o.rule), o.now)
  {
    LengthFixed(ops, o.key, o.rule);
    FiresReaching(ops, o);
  }

  lemma FiresRested(ops: seq<Op>, o: Observation)
    requires Clocked(ops + [Observed(o)]) && OneLength(ops, o.key, Length(o.rule)) && Counted(o)
    ensures Observe(After(ops), o).1.Some? <==>
      && Sum(ops, o.key, o.now - Window(o.rule)) + o.count >= Threshold(o.rule)
      && (NeedsFullWindow(o.rule) ==> Reaches(ops, o.key, Window(o.rule), o.now))
      && Rested(ops, o.key, Window(o.rule), o.now)
  {
    FiresByLength(ops, o);
    RestedIff(ops, o.key, Window(o.rule), o.now);
  }

  lemma OnlyCountedFires(s: State, o: Observation)
    ensures Observe(s, o).1.Some? ==> Counted(o)
    ensures Counted(o) <==> o.matches && o.count > 0
  {
  }

  /** An observation fires exactly when it counts, the counts of its window reach the threshold, the key has
      rested, and, for a sustained rule with a window, an earlier observation reaches back to the far edge. */
  lemma FiresExactly(ops: seq<Op>, o: Observation)
    requires Clocked(ops + [Observed(o)]) && OneLength(ops, o.key, Length(o.rule))
    ensures Observe(After(ops), o).1.Some? <==>
      && o.matches && o.count > 0 && Sum(ops, o.key, o.now - Length(o.rule)) + o.count >= Needed(o.rule)
      && Rested(ops, o.key, Length(o.rule), o.now)
      && (o.rule.sustained && o.rule.window > 0 ==> Reaches(ops, o.key, Length(o.rule), o.now))
  {
    OnlyCountedFires(After(ops), o);
    SameLimits(o.rule);
    if Counted(o) { FiresRested(ops, o); }
  }

  lemma FiredTells(s: State, o: Observation, total: int)
    requires Observe(s, o).1.Some? && total == Total(Kept(s, o))
    ensures var f := Observe(s, o).1.value;
      && f.key == o.key && f.sourceId == o.sourceId && f.window == Length(o.rule) && f.observedAt == o.now
      && f.count == total
    ensures o.key in Observe(s, o).0.active && Observe(s, o).0.active[o.key].count == total
  {
  }

  /** A fire names its key, its source, the counts of its window, the window's length and the time. */
  lemma FiredSays(ops: seq<Op>, o: Observation)
    requires Clocked(ops + [Observed(o)]) && OneLength(ops, o.key, Length(o.rule))
    requires Observe(After(ops), o).1.Some?
    ensures var f := Observe(After(ops), o).1.value;
      && f.key == o.key && f.sourceId == o.sourceId && f.window == Length(o.rule) && f.observedAt == o.now
      && f.count == Sum(ops, o.key, o.now - Length(o.rule)) + o.count
  {
    KeptSum(ops, o, Length(o.rule));
    FiredTells(After(ops), o, Total(Kept(After(ops), o)));
  }

  lemma KeptSum(ops: seq<Op>, o: Observation, w: int)
    requires Clocked(ops + [Observed(o)]) && OneLength(ops, o.key, w) && w == Length(o.rule)
    ensures Total(Kept(After(ops), o)) == Sum(ops, o.key, o.now - w) + o.count
  {
    LengthFixed(ops, o.key, o.rule);
    KeptBefore(ops, o, w);
  }

  lemma KeptBefore(ops: seq<Op>, o: Observation, w: int)
    requires Clocked(ops + [Observed(o)]) && FixedWindow(ops, o.key, w) && w == Window(o.rule)
    ensures Total(Kept(After(ops), o)) == Sum(ops, o.key, o.now - w) + o.count
  {
    StateBefore(ops, o);
    SumIsTotal(ops, o.key, o.now - w);
    KeptGiven(After(ops), o, History(ops, o.key), Latest(History(ops, o.key)), Sum(ops, o.key, o.now - w));
  }

  // ---------------------------------------------------------------- one observation, in any state

  /** The counts of the samples from a moment on. */
  function CountFrom(samples: seq<Sample>, start: int): int {
    if samples == [] then 0
    else
      var (before, last) := (CountFrom(samples[..|samples| - 1], start), samples[|samples| - 1]);
      if last.at >= start then before + last.count else before
  }

  lemma {:induction false} CountFromRecent(samples: seq<Sample>, cutoff: int, start: int)
    requires cutoff <= start
    ensures CountFrom(Recent(samples, cutoff), start) == CountFrom(samples, start)
    ensures Total(Recent(samples, start)) == CountFrom(samples, start)
  {
    if samples != [] {
      var (before, last) := (samples[..|samples| - 1], samples[|samples| - 1]);
      CountFromRecent(before, cutoff, start);
      if last.at >= cutoff {
        assert (Recent(before, cutoff) + [last])[..|Recent(before, cutoff)|] == Recent(before, cutoff);
      }
      if last.at >= start { TotalSnoc(Recent(before, start), last); }
    }
  }

  /** The samples kept for the key, with the observation's own. */
  function Gathered(s: State, o: Observation): seq<Sample> {
    (if o.key in s.windows then s.windows[o.key] else []) + [Sample(o.now, o.count)]
  }

  lemma TotalGathered(s: State, o: Observation)
    ensures Total(Kept(s, o)) == CountFrom(Gathered(s, o), o.now - Length(o.rule))
  {
    CountFromRecent(Gathered(s, o), o.now - Length(o.rule), o.now - Length(o.rule));
    SameLimits(o.rule);
  }

  lemma ReachGathered(s: State, o: Observation)
    ensures Full(s, o) <==> (o.rule.sustained && o.rule.window > 0 ==> Near(Gathered(s, o), Length(o.rule), o.now))
  {
    CoversIff(Gathered(s, o), Length(o.rule), o.now);
    SameLimits(o.rule);
  }

  /** Some sample lies near the far edge of the window. */
  ghost predicate Near(samples: seq<Sample>, w: int, now: int) {
    exists i :: 0 <= i < |samples| && samples[i].count > 0 && NearEdge(samples[i].at, w, now)
  }

  predicate Resting(s: State, o: Observation) {
    o.key in s.lastFire && s.lastFire[o.key] != 0 && o.now - s.lastFire[o.key] < Length(o.rule)
  }

  lemma FiresWhen(s: State, o: Observation)
    ensures Observe(s, o).1.Some? <==>
      o.matches && o.count > 0 && Total(Kept(s, o)) >= Needed(o.rule) && !Resting(s, o) && Full(s, o)
  {
    SameLimits(o.rule);
  }

  /** Whatever came before, and on any clock: the firing condition on what is stored for the key. */
  lemma ObserveDecides(s: State, o: Observation)
    ensures Observe(s, o).1.Some? <==>
      && o.matches && o.count > 0 && CountFrom(Gathered(s, o), o.now - Length(o.rule)) >= Needed(o.rule)
      && !Resting(s, o)
      && (o.rule.sustained && o.rule.window > 0 ==> Near(Gathered(s, o), Length(o.rule), o.now))
  {
    FiresWhen(s, o);
    TotalGathered(s, o);
    ReachGathered(s, o);
  }

  lemma CoversIff(samples: seq<Sample>, w: int, now: int)
    requires w > 0
    ensures Covers(samples, w, now) <==> Near(samples, w, now)
  {
    forall i | 0 <= i < |samples| { EdgeIff(samples[i], w, now); }
    if Covers(samples, w, now) {
      var i :| 0 <= i < |samples| && AtEdge(samples[i], w, now);
      assert NearEdge(samples[i].at, w, now);
    }
    if i :| 0 <= i < |samples| && samples[i].count > 0 && NearEdge(samples[i].at, w, now) {
      assert AtEdge(samples[i], w, now);
    }
  }

  lemma KeptCounts(s: State, o: Observation, start: int, x: Sample)
    requires start >= o.now - Length(o.rule)
    ensures CountFrom(Kept(s, o), start) == CountFrom(Gathered(s, o), start)
    ensures x in Kept(s, o) <==> x in Gathered(s, o) && x.at >= o.now - Length(o.rule)
  {
    CountFromRecent(Gathered(s, o), o.now - Length(o.rule), start);
    RecentMembers(Gathered(s, o), o.now - Length(o.rule), x);
    SameLimits(o.rule);
  }

  /** An observation that does not count changes nothing; of one that does, only a fire is remembered. */
  lemma ObserveRemembers(s: State, o: Observation)
    ensures var (s', fired) := Observe(s, o);
      && (!(o.matches && o.count > 0) ==> s' == s)
      && s'.lastFire == if fired.Some? then s.lastFire[o.key := o.now] else s.lastFire
  {
  }

  lemma StoresKept(s: State, o: Observation)
    requires o.matches && o.count > 0
    ensures var windows := Observe(s, o).0.windows;
      o.key in windows && windows[o.key] == Kept(s, o)
  {
  }

  /** A counted observation keeps the key's samples of its window, and no other. */
  lemma ObserveStores(s: State, o: Observation, start: int, x: Sample)
    requires o.matches && o.count > 0 && start >= o.now - Length(o.rule)
    ensures var windows := Observe(s, o).0.windows;
      && o.key in windows && CountFrom(windows[o.key], start) == CountFrom(Gathered(s, o), start)
      && (x in windows[o.key] <==> x in Gathered(s, o) && x.at >= o.now - Length(o.rule))
  {
    StoresKept(s, o);
    KeptCounts(s, o, start, x);
  }

  // ---------------------------------------------------------------- which detections are reported

  /** The detection of a fire as it is kept, apart from its total. */
  predicate Describes(d: ActiveDetection, o: Observation) {
    && d.ruleId == o.rule.id && d.key == o.key && d.sourceId == o.sourceId && d.resourceRef == o.rule.resourceRef
    && d.windowSeconds == Length(o.rule) / 1_000_000_000
    && d.observedAt == o.now && d.expiresAt == o.now + Length(o.rule)
  }

  /** No query up to now came at or after the time the fire expires; the zero time never does. */
  ghost predicate Lasts(ops: seq<Op>, i: nat)
    requires i < |ops| && ops[i].Observed?
  {
    var expiry := ops[i].o.now + Length(ops[i].o.rule);
    expiry != 0 ==> forall j | i < j < |ops| && ops[j].Queried? :: ops[j].now < expiry
  }

  lemma ObserveEntry(s: State, o: Observation, key: string)
    ensures var (s', fired) := Observe(s, o);
      if o.key == key && fired.Some? then key in s'.active && Describes(s'.active[key], o)
      else (key in s'.active <==> key in s.active) && (key in s.active ==> s'.active[key] == s.active[key])
  {
  }

  lemma QueryEntry(s: State, now: int, key: string)
    ensures var s' := Step(s, Queried(now));
      && (key in s'.active <==> key in s.active && (s.active[key].expiresAt == 0 || now < s.active[key].expiresAt))
      && (key in s'.active ==> s'.active[key] == s.active[key])
  {
  }

  function LastFired(ops: seq<Op>, key: string): (i: int)
    ensures -1 <= i < |ops|
  {
    if ops == [] then -1
    else if FiredAt(ops, |ops| - 1, key) then |ops| - 1 else LastFired(ops[..|ops| - 1], key)
  }

  lemma {:induction false} LastFiredIsLatest(ops: seq<Op>, key: string)
    ensures var i := LastFired(ops, key);
      if i >= 0 then LatestFire(ops, key, i) else forall j | 0 <= j < |ops| :: !FiredAt(ops, j, key)
  {
    if ops != [] && !FiredAt(ops, |ops| - 1, key) {
      var before := ops[..|ops| - 1];
      LastFiredIsLatest(before, key);
      LatestStays(ops, key, LastFired(before, key));
    }
  }

  lemma LatestStays(ops: seq<Op>, key: string, i: int)
    requires ops != [] && !FiredAt(ops, |ops| - 1, key) && i < |ops| - 1
    requires var before := ops[..|ops| - 1];
      if i >= 0 then LatestFire(before, key, i) else forall j | 0 <= j < |before| :: !FiredAt(before, j, key)
    ensures if i >= 0 then LatestFire(ops, key, i) else forall j | 0 <= j < |ops| :: !FiredAt(ops, j, key)
  {
    var before := ops[..|ops| - 1];
    if i >= 0 { FiredPrefix(ops, i, key); }
    forall j | i < j < |ops| && 0 <= j ensures !FiredAt(ops, j, key) {
      if j < |before| {
        FiredPrefix(ops, j, key);
        assert !FiredAt(before, j, key);
      }
    }
  }

  lemma OnlyLatest(ops: seq<Op>, key: string, i: nat)
    requires LatestFire(ops, key, i)
    ensures LastFired(ops, key) == i
  {
    LastFiredIsLatest(ops, key);
    assert FiredAt(ops, i, key);
  }

  /** The entry of a key, from the index of its latest fire. */
  ghost predicate EntryIs(ops: seq<Op>, key: string, i: int)
    requires i < |ops|
  {
    var active := After(ops).active;
    if i < 0 then key !in active
    else
      && ops[i].Observed? && (key in active <==> Lasts(ops, i)) && (key in active ==> Describes(active[key], ops[i].o))
  }

  lemma {:induction false} EntryTells(ops: seq<Op>, key: string)
    ensures EntryIs(ops, key, LastFired(ops, key))
  {
    if ops != [] {
      var (before, op) := (ops[..|ops| - 1], ops[|ops| - 1]);
      EntryTells(before, key);
      if op.Observed? {
        EntryObserved(ops, key, LastFired(before, key));
      } else {
        EntryQueried(ops, key, LastFired(before, key));
      }
    }
  }

  lemma EntryObserved(ops: seq<Op>, key: string, i: int)
    requires ops != [] && ops[|ops| - 1].Observed? && i < |ops| - 1 && EntryIs(ops[..|ops| - 1], key, i)
    ensures EntryIs(ops, key, if FiredAt(ops, |ops| - 1, key) then |ops| - 1 else i)
  {
    var (before, op) := (ops[..|ops| - 1], ops[|ops| - 1]);
    ObserveEntry(After(before), op.o, key);
    if 0 <= i { LastsLonger(ops, i); }
  }

  lemma EntryQueried(ops: seq<Op>, key: string, i: int)
    requires ops != [] && ops[|ops| - 1].Queried? && i < |ops| - 1 && EntryIs(ops[..|ops| - 1], key, i)
    ensures EntryIs(ops, key, i)
  {
    var (before, op) := (ops[..|ops| - 1], ops[|ops| - 1]);
    QueryEntry(After(before), op.now, key);
    if 0 <= i { LastsLonger(ops, i); }
  }

  lemma LastsLonger(ops: seq<Op>, i: nat)
    requires ops != [] && i < |ops| - 1 && ops[i].Observed?
    ensures var (last, expiry) := (ops[|ops| - 1], ops[i].o.now + Length(ops[i].o.rule));
      Lasts(ops, i) <==> Lasts(ops[..|ops| - 1], i) && (last.Queried? && expiry != 0 ==> last.now < expiry)
  {
    var before := ops[..|ops| - 1];
    assert forall j | 0 <= j < |before| :: before[j] == ops[j];
    if Lasts(ops, i) {
      forall j | i < j < |before| && before[j].Queried? ensures
        ops[i].o.now + Length(ops[i].o.rule) != 0 ==> before[j].now < ops[i].o.now + Length(ops[i].o.rule)
      {
        assert ops[j].Queried?;
      }
    }
  }

  /** A facts query at `now` reports for a source exactly the keys whose latest fire came from it, was of a named
      rule and has not expired, neither now nor at an earlier query, whatever the clock did. */
  lemma FactsExactly(ops: seq<Op>, key: string, sourceId: string, now: int, named: string -> bool)
    ensures var (s, all) := (After(ops + [Queried(now)]), ops + [Queried(now)]);
      (key in s.active && (sourceId == "" || s.active[key].sourceId == sourceId) && named(s.active[key].ruleId))
      <==> exists i: nat ::
             LatestFire(all, key, i) && Lasts(all, i)
             && (sourceId == "" || all[i].o.sourceId == sourceId) && named(all[i].o.rule.id)
  {
    var all := ops + [Queried(now)];
    EntryTells(all, key);
    LastFiredIsLatest(all, key);
    var last := LastFired(all, key);
    forall i: nat | LatestFire(all, key, i) ensures i == last { OnlyLatest(all, key, i); }
    var s := After(all);
    if key in s.active && (sourceId == "" || s.active[key].sourceId == sourceId) && named(s.active[key].ruleId) {
      assert LatestFire(all, key, last) && Lasts(all, last);
    }
  }

  /** On a clock that does not run backwards that is: the latest fire lies within its window. */
  lemma LastsOnClock(ops: seq<Op>, key: string, now: int, i: nat)
    requires Clocked(ops + [Queried(now)]) && LatestFire(ops + [Queried(now)], key, i)
    ensures var o := (ops + [Queried(now)])[i].o;
      Lasts(ops + [Queried(now)], i) <==> now - o.now < Length(o.rule)
  {
    var all := ops + [Queried(now)];
    assert TimeOf(all[i]) > 0 && all[|ops|] == Queried(now);
    forall j | i < j < |all| && all[j].Queried? ensures all[j].now <= now {
      assert TimeOf(all[j]) <= TimeOf(all[|ops|]);
    }
  }

  /** So a facts query reports exactly the keys whose latest fire lies within its window, came from that source
      and is of a named rule. */
  lemma FactsOnClock(ops: seq<Op>, key: string, sourceId: string, now: int, named: string -> bool)
    requires Clocked(ops + [Queried(now)])
    ensures var (s, all) := (After(ops + [Queried(now)]), ops + [Queried(now)]);
      (key in s.active && (sourceId == "" || s.active[key].sourceId == sourceId) && named(s.active[key].ruleId))
      <==> exists i: nat ::
             LatestFire(all, key, i) && now - all[i].o.now < Length(all[i].o.rule)
             && (sourceId == "" || all[i].o.sourceId == sourceId) && named(all[i].o.rule.id)
  {
    var all := ops + [Queried(now)];
    FactsExactly(ops, key, sourceId, now, named);
    forall i: nat | LatestFire(all, key, i)
      ensures Lasts(all, i) <==> now - all[i].o.now < Length(all[i].o.rule)
    {
      LastsOnClock(ops, key, now, i);
    }
  }

  /** A reported entry names the rule, key, source and resource of the latest fire, its window, its time and
      when it expires. */
  lemma FactSays(ops: seq<Op>, key: string, i: nat)
    requires LatestFire(ops, key, i) && key in After(ops).active
    ensures var (d, o) := (After(ops).active[key], ops[i].o);
      && d.ruleId == o.rule.id && d.key == key && d.sourceId == o.sourceId && d.resourceRef == o.rule.resourceRef
      && d.windowSeconds == Length(o.rule) / 1_000_000_000
      && d.observedAt == o.now && d.expiresAt == o.now + Length(o.rule)
  {
    EntryTells(ops, key);
    OnlyLatest(ops, key, i);
  }

  lemma CountKept(s: State, op: Op, key: string)
    requires key in Step(s, op).active && !(op.Observed? && op.o.key == key && Observe(s, op.o).1.Some?)
    ensures key in s.active && Step(s, op).active[key] == s.active[key]
  {
    if op.Observed? { ObserveEntry(s, op.o, key); } else { QueryEntry(s, op.now, key); }
  }

  lemma CountAtFire(ops: seq<Op>, o: Observation)
    requires Clocked(ops + [Observed(o)]) && OneLength(ops, o.key, Length(o.rule)) && Observe(After(ops), o).1.Some?
    ensures var active := Observe(After(ops), o).0.active;
      o.key in active && active[o.key].count == Sum(ops, o.key, o.now - Length(o.rule)) + o.count
  {
    KeptSum(ops, o, Length(o.rule));
    FiredTells(After(ops), o, Total(Kept(After(ops), o)));
  }

  lemma AfterPrefix(ops: seq<Op>, n: nat)
    requires n < |ops|
    ensures After(ops[..n + 1]) == Step(After(ops[..n]), ops[n])
  {
    assert ops[..n + 1][..n] == ops[..n];
  }

  lemma NotFiredKeeps(ops: seq<Op>, key: string, n: nat)
    requires n < |ops| && !FiredAt(ops, n, key) && key in After(ops[..n + 1]).active
    ensures key in After(ops[..n]).active && After(ops[..n + 1]).active[key] == After(ops[..n]).active[key]
  {
    AfterPrefix(ops, n);
    CountKept(After(ops[..n]), ops[n], key);
  }

  /** The entry is the one made by the latest fire. */
  lemma {:induction false} FactIsFresh(ops: seq<Op>, key: string, i: nat, n: nat)
    requires i < n <= |ops| && key in After(ops[..n]).active
    requires forall j | i < j < |ops| :: !FiredAt(ops, j, key)
    ensures key in After(ops[..i + 1]).active && After(ops[..n]).active[key] == After(ops[..i + 1]).active[key]
    decreases n
  {
    if i + 1 < n {
      NotFiredKeeps(ops, key, n - 1);
      FactIsFresh(ops, key, i, n - 1);
    }
  }

  lemma LatestIsFresh(ops: seq<Op>, key: string, i: nat, d: ActiveDetection)
    requires LatestFire(ops, key, i) && key in After(ops).active && d == After(ops).active[key]
    ensures key in After(ops[..i + 1]).active && d == After(ops[..i + 1]).active[key]
  {
    assert ops[..|ops|] == ops;
    FactIsFresh(ops, key, i, |ops|);
  }

  lemma UpTo(ops: seq<Op>, key: string, w: int, i: nat)
    requires i < |ops| && ops[i].Observed? && Clocked(ops) && OneLength(ops, key, w)
    ensures ops[..i + 1] == ops[..i] + [Observed(ops[i].o)]
    ensures Clocked(ops[..i] + [Observed(ops[i].o)]) && OneLength(ops[..i], key, w)
  {
    assert forall j | 0 <= j <= i :: ops[..i + 1][j] == ops[j];
  }

  lemma FireCounts(ops: seq<Op>, key: string, i: nat, d: ActiveDetection)
    requires i < |ops| && FiredAt(ops, i, key) && Clocked(ops) && OneLength(ops, key, Length(ops[i].o.rule))
    requires key in After(ops[..i + 1]).active && d == After(ops[..i + 1]).active[key]
    ensures var o := ops[i].o;
      d.count == Sum(ops[..i], key, o.now - Length(o.rule)) + o.count
  {
    UpTo(ops, key, Length(ops[i].o.rule), i);
    CountAtFire(ops[..i], ops[i].o);
    AfterPrefix(ops, i);
  }

  /** And the counts observed in its window when it fired. */
  lemma FactCounts(ops: seq<Op>, key: string, i: nat, d: ActiveDetection)
    requires LatestFire(ops, key, i) && key in After(ops).active && d == After(ops).active[key]
    requires Clocked(ops) && OneLength(ops, key, Length(ops[i].o.rule))
    ensures var o := ops[i].o;
      d.count == Sum(ops[..i], key, o.now - Length(o.rule)) + o.count
  {
    LatestIsFresh(ops, key, i, d);
    FireCounts(ops, key, i, d);
  }
}
