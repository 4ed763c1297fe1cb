/** Whole histories of the detection engine against a brute-force reading of the events. */
module DetectionRuns {
  import opened Detection

  datatype Op = Observed(o: Observation) | Queried(now: int)

  function TimeOf(op: Op): int {
    match op
    case Observed(o) => o.now
    case Queried(now) => now
  }

  function Step(s: State, op: Op): State {
    match op
    case Observed(o) => Observe(s, o).0
    case Queried(now) => Purge(s, now)
  }

  function After(ops: seq<Op>): State {
    if ops == [] then EMPTY else Step(After(ops[..|ops| - 1]), ops[|ops| - 1])
  }

  /** A clock that is past the zero time and never runs backwards. */
  predicate Clocked(ops: seq<Op>) {
    && (forall i | 0 <= i < |ops| :: TimeOf(ops[i]) > 0)
    && (forall i, j | 0 <= i <= j < |ops| :: TimeOf(ops[i]) <= TimeOf(ops[j]))
  }

  function LastTime(ops: seq<Op>): int {
    if ops == [] then 0 else TimeOf(ops[|ops| - 1])
  }

  predicate Hits(op: Op, key: string) {
    op.Observed? && Counted(op.o) && op.o.key == key
  }

  /** One window length for the key, as for one rule. */
  predicate FixedWindow(ops: seq<Op>, key: string, window: int) {
    window > 0 && forall i | 0 <= i < |ops| && Hits(ops[i], key) :: Window(ops[i].o.rule) == window
  }

  // ---------------------------------------------------------------- the history, by brute force

  /** Every counted sample of the key. */
  function History(ops: seq<Op>, key: string): seq<Sample> {
    if ops == [] then []
    else
      var (before, op) := (History(ops[..|ops| - 1], key), ops[|ops| - 1]);
      if Hits(op, key) then before + [Sample(op.o.now, op.o.count)] else before
  }

  predicate Fires(s: State, op: Op, key: string) {
    Hits(op, key) && Observe(s, op.o).1.Some?
  }

  /** The times at which the key fired. */
  function FireTimes(ops: seq<Op>, key: string): seq<int> {
    if ops == [] then []
    else
      var (before, op) := (FireTimes(ops[..|ops| - 1], key), ops[|ops| - 1]);
      if Fires(After(ops[..|ops| - 1]), op, key) then before + [op.o.now] else before
  }

  predicate FiredWithin(fires: seq<int>, window: int, now: int) {
    exists i :: 0 <= i < |fires| && now - fires[i] < window
  }

  /** A detection of the key is in effect at `now`. */
  predicate InEffect(s: State, key: string, now: int) {
    key in s.active && !Expired(s.active[key], now)
  }

  // ---------------------------------------------------------------- the filter

  lemma {:induction false} RecentOfRecent(samples: seq<Sample>, early: int, late: int)
    requires early <= late
    ensures Recent(Recent(samples, early), late) == Recent(samples, late)
  {
    if samples != [] {
      var (before, last) := (samples[..|samples| - 1], samples[|samples| - 1]);
      RecentOfRecent(before, early, late);
      if last.at >= early {
        assert (Recent(before, early) + [last])[..|Recent(before, early)|] == Recent(before, early);
      }
    }
  }

  lemma RecentAppend(samples: seq<Sample>, s: Sample, early: int, late: int)
    requires early <= late
    ensures Recent(Recent(samples, early) + [s], late) == Recent(samples + [s], late)
  {
    RecentOfRecent(samples, early, late);
    RecentSnoc(Recent(samples, early), s, late);
    RecentSnoc(samples, s, late);
  }

  lemma {:induction false} RecentMembers(samples: seq<Sample>, cutoff: int, s: Sample)
    ensures s in Recent(samples, cutoff) <==> s in samples && s.at >= cutoff
  {
    if samples != [] {
      var (before, last) := (samples[..|samples| - 1], samples[|samples| - 1]);
      RecentMembers(before, cutoff, s);
      assert samples == before + [last];
    }
  }

  // ---------------------------------------------------------------- refinement

  function Latest(history: seq<Sample>): int {
    if history == [] then 0 else history[|history| - 1].at
  }

  lemma LatestSnoc(history: seq<Sample>, sample: Sample)
    ensures Latest(history + [sample]) == sample.at
  {
  }

  /** The state of one key, read off its history and its fire times. */
  ghost predicate Agrees(s: State, key: string, window: int, history: seq<Sample>, fires: seq<int>, now: int) {
    WindowAgrees(s, key, window, history, now) && FiresAgree(s, key, window, fires, now)
  }

  ghost predicate WindowAgrees(s: State, key: string, window: int, history: seq<Sample>, now: int) {
    && WindowOf(s, key) == Recent(history, Latest(history) - window)
    && (history != [] ==> key in s.windows) && Latest(history) <= now
  }

  ghost predicate FiresAgree(s: State, key: string, window: int, fires: seq<int>, now: int) {
    && (fires == [] ==> key !in s.lastFire && key !in s.active)
    && (fires != [] ==>
          && key in s.lastFire && s.lastFire[key] == fires[|fires| - 1]
          && (key in s.active ==> s.active[key].expiresAt == fires[|fires| - 1] + window)
          && (key !in s.active ==> now - fires[|fires| - 1] >= window))
    && (forall i | 0 <= i < |fires| :: 0 < fires[i] <= now)
    && (forall i, j | 0 <= i < j < |fires| :: fires[j] - fires[i] >= window)
  }

  lemma LatestDecides(fires: seq<int>, window: int, now: int)
    requires window > 0 && forall i, j | 0 <= i < j < |fires| :: fires[j] - fires[i] >= window
    ensures FiredWithin(fires, window, now) <==> fires != [] && now - fires[|fires| - 1] < window
  {
    if fires != [] {
      forall i | 0 <= i < |fires| ensures fires[i] <= fires[|fires| - 1] { }
    }
  }

  /** A sample at the far edge of the window at `now` that the previous observation, at `latest`, kept. */
  predicate EdgeSample(history: seq<Sample>, latest: int, window: int, now: int)
    requires window > 0
  {
    exists s | s in history :: AtEdge(s, window, now) && s.at >= latest - window
  }

  lemma EdgeIsCovered(history: seq<Sample>, latest: int, sample: Sample, window: int)
    requires window > 0
    ensures Covers(Recent(history, latest - window) + [sample], window, sample.at)
      <==> EdgeSample(history, latest, window, sample.at)
  {
    var stored := Recent(history, latest - window);
    forall s { RecentMembers(history, latest - window, s); }
    CoversStored(stored, sample, window);
  }

  lemma CoversStored(stored: seq<Sample>, sample: Sample, window: int)
    requires window > 0
    ensures Covers(stored + [sample], window, sample.at) <==> exists s | s in stored :: AtEdge(s, window, sample.at)
  {
    var all := stored + [sample];
    if s :| s in stored && AtEdge(s, window, sample.at) {
      var i :| 0 <= i < |stored| && stored[i] == s;
      assert AtEdge(all[i], window, sample.at);
    }
  }

  lemma KeptIsRecent(s: State, o: Observation, history: seq<Sample>, latest: int)
    requires WindowOf(s, o.key) == Recent(history, latest - Window(o.rule)) && latest <= o.now
    ensures Kept(s, o) == Recent(history + [Sample(o.now, o.count)], o.now - Window(o.rule))
  {
    RecentAppend(history, Sample(o.now, o.count), latest - Window(o.rule), o.now - Window(o.rule));
  }

  lemma FullIff(s: State, o: Observation, history: seq<Sample>, latest: int)
    requires WindowOf(s, o.key) == Recent(history, latest - Window(o.rule))
    ensures Full(s, o) <==> (NeedsFullWindow(o.rule) ==> EdgeSample(history, latest, Window(o.rule), o.now))
  {
    EdgeIsCovered(history, latest, Sample(o.now, o.count), Window(o.rule));
  }

  lemma RefractoryIff(s: State, key: string, window: int, fires: seq<int>, before: int, now: int)
    requires FiresAgree(s, key, window, fires, before) && window > 0
    ensures Refractory(s, key, window, now) <==> FiredWithin(fires, window, now)
  {
    LatestDecides(fires, window, now);
  }

  lemma TotalKept(s: State, o: Observation, history: seq<Sample>, latest: int)
    requires WindowOf(s, o.key) == Recent(history, latest - Window(o.rule)) && latest <= o.now
    ensures Total(Kept(s, o)) == Total(Recent(history + [Sample(o.now, o.count)], o.now - Window(o.rule)))
  {
    KeptIsRecent(s, o, history, latest);
  }

  lemma ObserveEffect(s: State, o: Observation)
    requires Counted(o)
    ensures var (s', fired) := Observe(s, o);
      && o.key in s'.windows && WindowOf(s', o.key) == Kept(s, o)
      && (fired.Some? <==> Firing(s, o))
      && (if Firing(s, o) then
            && o.key in s'.lastFire && s'.lastFire[o.key] == o.now
            && o.key in s'.active && s'.active[o.key].expiresAt == o.now + Window(o.rule)
          else s'.lastFire == s.lastFire && s'.active == s.active)
  {
  }

  lemma FireAgrees(s: State, s': State, o: Observation, fires: seq<int>, now: int)
    requires FiresAgree(s, o.key, Window(o.rule), fires, now) && now <= o.now && o.now > 0
    requires !Refractory(s, o.key, Window(o.rule), o.now)
    requires o.key in s'.lastFire && s'.lastFire[o.key] == o.now
    requires o.key in s'.active && s'.active[o.key].expiresAt == o.now + Window(o.rule)
    ensures FiresAgree(s', o.key, Window(o.rule), fires + [o.now], o.now)
  {
    RefractoryIff(s, o.key, Window(o.rule), fires, now, o.now);
    forall i | 0 <= i < |fires| ensures o.now - fires[i] >= Window(o.rule) { }
  }

  lemma WindowSlides(s: State, o: Observation, history: seq<Sample>, now: int)
    requires WindowAgrees(s, o.key, Window(o.rule), history, now) && now <= o.now && Counted(o)
    ensures WindowAgrees(Observe(s, o).0, o.key, Window(o.rule), history + [Sample(o.now, o.count)], o.now)
  {
    KeptIsRecent(s, o, history, Latest(history));
    LatestSnoc(history, Sample(o.now, o.count));
    ObserveEffect(s, o);
  }

  lemma FiresFollow(s: State, o: Observation, fires: seq<int>, now: int)
    requires FiresAgree(s, o.key, Window(o.rule), fires, now) && now <= o.now && o.now > 0 && Counted(o)
    ensures var (s', fired) := Observe(s, o);
      FiresAgree(s', o.key, Window(o.rule), if fired.Some? then fires + [o.now] else fires, o.now)
  {
    ObserveEffect(s, o);
    if Firing(s, o) { FireAgrees(s, Observe(s, o).0, o, fires, now); }
  }

  lemma OtherAgrees(s: State, op: Op, key: string, window: int, history: seq<Sample>, fires: seq<int>, now: int)
    requires Agrees(s, key, window, history, fires, now) && now <= TimeOf(op) && !Hits(op, key) && window > 0
    ensures Agrees(Step(s, op), key, window, history, fires, TimeOf(op))
  {
    OtherKeysKept(s, op, key);
  }

  lemma OtherKeysKept(s: State, op: Op, key: string)
    requires !Hits(op, key)
    ensures var s' := Step(s, op);
      && (key in s'.windows <==> key in s.windows) && WindowOf(s', key) == WindowOf(s, key)
      && (key in s'.lastFire <==> key in s.lastFire) && (key in s.lastFire ==> s'.lastFire[key] == s.lastFire[key])
      && (key in s'.active ==> key in s.active && s'.active[key] == s.active[key])
      && (key in s.active && key !in s'.active ==> Expired(s.active[key], TimeOf(op)))
  {
    if op.Observed? { OtherObserved(s, op.o, key); }
  }

  /** Nothing about the key changed. */
  ghost predicate SameFor(s: State, s': State, key: string) {
    && (key in s'.windows <==> key in s.windows) && WindowOf(s', key) == WindowOf(s, key)
    && (key in s'.lastFire <==> key in s.lastFire) && (key in s.lastFire ==> s'.lastFire[key] == s.lastFire[key])
    && (key in s'.active <==> key in s.active) && (key in s.active ==> s'.active[key] == s.active[key])
  }

  lemma OtherStored(s: State, o: Observation, kept: seq<Sample>, total: int, key: string)
    requires o.key != key
    ensures var s1 := s.(windows := s.windows[o.key := kept]);
      SameFor(s, s1, key) && SameFor(s, Fire(s1, o, total).0, key)
  {
  }

  lemma OtherObserved(s: State, o: Observation, key: string)
    requires Counted(o) ==> o.key != key
    ensures SameFor(s, Observe(s, o).0, key)
  {
    if Counted(o) { OtherStored(s, o, Kept(s, o), Total(Kept(s, o)), key); }
  }

  /** The windows, the fire times and the active detections agree with the history, for every key. */
  lemma {:induction false} AlwaysAgrees(ops: seq<Op>, key: string, window: int)
    requires Clocked(ops) && FixedWindow(ops, key, window)
    ensures Agrees(After(ops), key, window, History(ops, key), FireTimes(ops, key), LastTime(ops))
  {
    if ops != [] {
      var (before, op) := (ops[..|ops| - 1], ops[|ops| - 1]);
      AlwaysAgrees(before, key, window);
      var now := LastTime(before);
      assert now <= TimeOf(op);
      if Hits(op, key) {
        WindowSlides(After(before), op.o, History(before, key), now);
        FiresFollow(After(before), op.o, FireTimes(before, key), now);
      } else {
        OtherAgrees(After(before), op, key, window, History(before, key), FireTimes(before, key), now);
      }
    }
  }

  // ---------------------------------------------------------------- what it means

  /** After a counted observation the stored window is exactly the samples no older than the window. */
  lemma WindowIsHistory(ops: seq<Op>, key: string, window: int)
    requires Clocked(ops) && FixedWindow(ops, key, window) && ops != [] && Hits(ops[|ops| - 1], key)
    ensures key in After(ops).windows
    ensures After(ops).windows[key] == Recent(History(ops, key), TimeOf(ops[|ops| - 1]) - window)
  {
    StoredWindow(ops, key, window);
    LatestIsLast(ops, key);
  }

  lemma StoredWindow(ops: seq<Op>, key: string, window: int)
    requires Clocked(ops) && FixedWindow(ops, key, window)
    ensures WindowAgrees(After(ops), key, window, History(ops, key), LastTime(ops))
  {
    AlwaysAgrees(ops, key, window);
  }

  lemma RememberedFires(ops: seq<Op>, key: string, window: int)
    requires Clocked(ops) && FixedWindow(ops, key, window)
    ensures FiresAgree(After(ops), key, window, FireTimes(ops, key), LastTime(ops))
  {
    AlwaysAgrees(ops, key, window);
  }

  lemma LatestIsLast(ops: seq<Op>, key: string)
    requires ops != [] && Hits(ops[|ops| - 1], key)
    ensures History(ops, key) != [] && Latest(History(ops, key)) == TimeOf(ops[|ops| - 1])
  {
  }

  lemma StateBefore(ops: seq<Op>, o: Observation)
    requires Clocked(ops + [Observed(o)]) && FixedWindow(ops, o.key, Window(o.rule))
    ensures var history := History(ops, o.key);
      WindowOf(After(ops), o.key) == Recent(history, Latest(history) - Window(o.rule)) && Latest(history) <= o.now
    ensures Refractory(After(ops), o.key, Window(o.rule), o.now)
      <==> FiredWithin(FireTimes(ops, o.key), Window(o.rule), o.now)
  {
    ClockedPrefix(ops, Observed(o));
    WindowBefore(ops, o);
    RefractoryBefore(ops, o);
  }

  lemma WindowBefore(ops: seq<Op>, o: Observation)
    requires Clocked(ops) && LastTime(ops) <= o.now && FixedWindow(ops, o.key, Window(o.rule))
    ensures var history := History(ops, o.key);
      WindowOf(After(ops), o.key) == Recent(history, Latest(history) - Window(o.rule)) && Latest(history) <= o.now
  {
    StoredWindow(ops, o.key, Window(o.rule));
  }

  lemma RefractoryBefore(ops: seq<Op>, o: Observation)
    requires Clocked(ops) && FixedWindow(ops, o.key, Window(o.rule))
    ensures Refractory(After(ops), o.key, Window(o.rule), o.now)
      <==> FiredWithin(FireTimes(ops, o.key), Window(o.rule), o.now)
  {
    RememberedFires(ops, o.key, Window(o.rule));
    RefractoryIff(After(ops), o.key, Window(o.rule), FireTimes(ops, o.key), LastTime(ops), o.now);
  }

  lemma ClockedPrefix(ops: seq<Op>, op: Op)
    requires Clocked(ops + [op])
    ensures Clocked(ops) && LastTime(ops) <= TimeOf(op)
  {
    var all := ops + [op];
    assert all[|ops|] == op && forall i | 0 <= i < |ops| :: all[i] == ops[i];
    if ops != [] { assert TimeOf(all[|ops| - 1]) <= TimeOf(all[|ops|]); }
  }

  /** An observation fires exactly when the samples of its window reach the threshold, the key has not
      fired within the last window and, for a sustained rule, a sample that the previous observation still
      kept lies at the far edge of the window. */
  lemma FiresIff(ops: seq<Op>, o: Observation)
    requires Clocked(ops + [Observed(o)]) && FixedWindow(ops, o.key, Window(o.rule)) && Counted(o)
    ensures var history := History(ops, o.key);
      Observe(After(ops), o).1.Some? <==>
        Total(Recent(history + [Sample(o.now, o.count)], o.now - Window(o.rule))) >= Threshold(o.rule)
        && (NeedsFullWindow(o.rule) ==> EdgeSample(history, Latest(history), Window(o.rule), o.now))
        && !FiredWithin(FireTimes(ops, o.key), Window(o.rule), o.now)
  {
    var (s, history) := (After(ops), History(ops, o.key));
    StateBefore(ops, o);
    ObservedFires(s, o, history, Latest(history), FireTimes(ops, o.key));
  }

  lemma ObservedFires(s: State, o: Observation, history: seq<Sample>, latest: int, fires: seq<int>)
    requires Counted(o) && WindowOf(s, o.key) == Recent(history, latest - Window(o.rule)) && latest <= o.now
    requires Refractory(s, o.key, Window(o.rule), o.now) <==> FiredWithin(fires, Window(o.rule), o.now)
    ensures Observe(s, o).1.Some? <==>
        Total(Recent(history + [Sample(o.now, o.count)], o.now - Window(o.rule))) >= Threshold(o.rule)
        && (NeedsFullWindow(o.rule) ==> EdgeSample(history, latest, Window(o.rule), o.now))
        && !FiredWithin(fires, Window(o.rule), o.now)
  {
    TotalKept(s, o, history, latest);
    FullIff(s, o, history, latest);
  }

  /** The clock may run backwards; only the zero time, which means "never", does not count. */
  predicate Timed(ops: seq<Op>, key: string) {
    forall i | 0 <= i < |ops| && Hits(ops[i], key) :: ops[i].o.now != 0
  }

  /** The engine remembers the key's latest fire, and fires come in ascending order. */
  ghost predicate FiresAscend(s: State, key: string, fires: seq<int>) {
    && (key in s.lastFire <==> fires != [])
    && (fires != [] ==> s.lastFire[key] == fires[|fires| - 1] != 0)
    && (forall i, j | 0 <= i < j < |fires| :: fires[i] < fires[j])
  }

  lemma {:induction false} AlwaysAscend(ops: seq<Op>, key: string)
    requires Timed(ops, key)
    ensures FiresAscend(After(ops), key, FireTimes(ops, key))
  {
    if ops != [] {
      var (before, op) := (ops[..|ops| - 1], ops[|ops| - 1]);
      AlwaysAscend(before, key);
      if Hits(op, key) {
        ObserveAscends(After(before), op.o, FireTimes(before, key));
      } else {
        OtherKeysKept(After(before), op, key);
      }
    }
  }

  lemma ObserveAscends(s: State, o: Observation, fires: seq<int>)
    requires FiresAscend(s, o.key, fires) && Counted(o) && o.now != 0
    ensures var (s', fired) := Observe(s, o);
      FiresAscend(s', o.key, if fired.Some? then fires + [o.now] else fires)
  {
    ObserveEffect(s, o);
    if Firing(s, o) {
      forall i | 0 <= i < |fires| ensures fires[i] < o.now { assert fires[i] <= fires[|fires| - 1]; }
    }
  }

  /** A key fires at least the rule's window after every one of its earlier fires, whatever rules and clocks
      came before. */
  lemma FiresAfterAll(ops: seq<Op>, o: Observation, i: nat)
    requires Timed(ops, o.key) && i < |FireTimes(ops, o.key)| && Observe(After(ops), o).1.Some?
    ensures o.now - FireTimes(ops, o.key)[i] >= Window(o.rule)
  {
    AlwaysAscend(ops, o.key);
    FireIsAfter(After(ops), o, FireTimes(ops, o.key), i);
  }

  lemma FireIsAfter(s: State, o: Observation, fires: seq<int>, i: nat)
    requires FiresAscend(s, o.key, fires) && i < |fires| && Observe(s, o).1.Some?
    ensures o.now - fires[i] >= Window(o.rule)
  {
    assert fires[i] <= fires[|fires| - 1];
  }

  /** So, with one window length, any two fires of a key are at least a window apart. */
  lemma {:induction false} FiresApart(ops: seq<Op>, key: string, window: int, i: nat, j: nat)
    requires Timed(ops, key) && FixedWindow(ops, key, window) && i < j < |FireTimes(ops, key)|
    ensures FireTimes(ops, key)[j] - FireTimes(ops, key)[i] >= window
  {
    var (before, op) := (ops[..|ops| - 1], ops[|ops| - 1]);
    if j < |FireTimes(before, key)| {
      FiresApart(before, key, window, i, j);
    } else {
      FiresAfterAll(before, op.o, i);
    }
  }

  /** From the last event on, the key's detection is in effect exactly while the key cannot fire again. */
  lemma InEffectIffRefractory(ops: seq<Op>, key: string, window: int, now: int)
    requires Clocked(ops) && FixedWindow(ops, key, window) && ops != [] && now >= TimeOf(ops[|ops| - 1])
    ensures InEffect(After(ops), key, now) <==> FiredWithin(FireTimes(ops, key), window, now)
    ensures InEffect(After(ops), key, now) <==> Refractory(After(ops), key, window, now)
  {
    AlwaysAgrees(ops, key, window);
    LatestDecides(FireTimes(ops, key), window, now);
  }

  /** An event for one key leaves every other key's window, fire time and unexpired detection alone. */
  lemma OtherKeysUntouched(s: State, op: Op, key: string)
    requires !Hits(op, key)
    ensures WindowOf(Step(s, op), key) == WindowOf(s, key)
    ensures forall window, now :: Refractory(Step(s, op), key, window, now) == Refractory(s, key, window, now)
    ensures forall now | now >= TimeOf(op) :: InEffect(Step(s, op), key, now) == InEffect(s, key, now)
  {
    OtherKeysKept(s, op, key);
  }

  // ---------------------------------------------------------------- a sustained rule misses

  lemma OneMore(ops: seq<Op>, o: Observation)
    requires Counted(o)
    ensures var all := ops + [Observed(o)];
      && History(all, o.key) == History(ops, o.key) + [Sample(o.now, o.count)]
      && FireTimes(all, o.key) == FireTimes(ops, o.key) + if Observe(After(ops), o).1.Some? then [o.now] else []
  {
    assert (ops + [Observed(o)])[..|ops|] == ops;
  }

  /** A sustained rule over eight seconds, so with a tolerance of two, that needs two observations. */
  predicate Sustained(r: Rule) {
    r.window == 8 * SECOND && r.threshold == 2 && r.sustained
  }

  function Hit(r: Rule, key: string, now: int): Observation {
    Observation(r, true, key, "", 1, now)
  }

  lemma FirstHit(r: Rule, key: string)
    requires Sustained(r)
    ensures var ops := [] + [Observed(Hit(r, key, 10 * SECOND))];
      && History(ops, key) == [] + [Sample(10 * SECOND, 1)]
      && FireTimes(ops, key) == []
  {
    var (o, s) := (Hit(r, key, 10 * SECOND), Sample(10 * SECOND, 1));
    OneMore([], o);
    FiresIff([], o);
    RecentSnoc([], s, 2 * SECOND);
    TotalSnoc([], s);
  }

  lemma SecondHit(ops: seq<Op>, r: Rule, key: string)
    requires Sustained(r) && ops == [] + [Observed(Hit(r, key, 10 * SECOND))]
    ensures var all := ops + [Observed(Hit(r, key, 19 * SECOND))];
      && History(all, key) == [] + [Sample(10 * SECOND, 1)] + [Sample(19 * SECOND, 1)]
      && FireTimes(all, key) == []
  {
    var (o, first, second) := (Hit(r, key, 19 * SECOND), Sample(10 * SECOND, 1), Sample(19 * SECOND, 1));
    FirstHit(r, key);
    OneMore(ops, o);
    FiresIff(ops, o);
    RecentSnoc([], first, 11 * SECOND);
    RecentSnoc([] + [first], second, 11 * SECOND);
    TotalSnoc([], second);
  }

  lemma BothRecent(first: Sample, second: Sample, third: Sample, cutoff: int)
    requires first.at < cutoff <= second.at && cutoff <= third.at
    ensures Total(Recent([] + [first] + [second] + [third], cutoff)) == second.count + third.count
  {
    RecentSnoc([], first, cutoff);
    RecentSnoc([] + [first], second, cutoff);
    RecentSnoc([] + [first] + [second], third, cutoff);
    TotalSnoc([], second);
    TotalSnoc([] + [second], third);
  }

  /** A third hit at 19.5 seconds finds the threshold reached and the far edge sampled, and stays silent. */
  predicate Misses(ops: seq<Op>, o: Observation) {
    && AtEdge(Sample(10 * SECOND, 1), Window(o.rule), o.now) && Sample(10 * SECOND, 1) in History(ops, o.key)
    && Total(Recent(History(ops, o.key) + [Sample(o.now, o.count)], o.now - Window(o.rule))) >= Threshold(o.rule)
    && FireTimes(ops, o.key) == []
    && Observe(After(ops), o).1.None?
  }

  lemma ThirdHit(ops: seq<Op>, o: Observation)
    requires Sustained(o.rule) && o == Hit(o.rule, o.key, 19 * SECOND + SECOND / 2)
    requires Clocked(ops + [Observed(o)]) && FixedWindow(ops, o.key, Window(o.rule)) && FireTimes(ops, o.key) == []
    requires History(ops, o.key) == [] + [Sample(10 * SECOND, 1)] + [Sample(19 * SECOND, 1)]
    ensures Misses(ops, o)
  {
    BothRecent(Sample(10 * SECOND, 1), Sample(19 * SECOND, 1), Sample(o.now, 1), o.now - Window(o.rule));
    FiresIff(ops, o);
    LatestSnoc([] + [Sample(10 * SECOND, 1)], Sample(19 * SECOND, 1));
  }

  /** Observed at 10, 19 and 19.5 seconds, a sustained rule stays silent, although its window is full and a
      sample lies at the far edge: the second observation had already dropped that sample. */
  lemma SustainedMisses(r: Rule, key: string)
    requires Sustained(r)
    ensures Misses([] + [Observed(Hit(r, key, 10 * SECOND))] + [Observed(Hit(r, key, 19 * SECOND))],
                   Hit(r, key, 19 * SECOND + SECOND / 2))
  {
    var before := [] + [Observed(Hit(r, key, 10 * SECOND))];
    SecondHit(before, r, key);
    ThirdHit(before + [Observed(Hit(r, key, 19 * SECOND))], Hit(r, key, 19 * SECOND + SECOND / 2));
  }
}
