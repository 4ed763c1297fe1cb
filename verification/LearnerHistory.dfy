/** What the learner's operations do, entry by entry, and what its cache and its store hold after any run. */
module LearnerHistory {
  import opened Text
  import opened RelationshipLearner

  // ---------------------------------------------------------------- one observation

  /** The guard lets it pass, and it is known or there is room for it. */
  predicate Passes(s: State, o: Observation, cfg: Config) {
    o.verdict != DenyLearning && (o.key in s.cache || |s.cache| < cfg.maxCached)
  }

  /** Seen often enough, in enough windows, for long enough, as far as the settings ask for it. */
  predicate Ready(seenCount: nat, windows: int, firstSeen: int, now: int, cfg: Config) {
    && (cfg.minSeen == 0 || seenCount >= cfg.minSeen) && (cfg.minWindows <= 0 || windows >= cfg.minWindows)
    && (cfg.minAge <= 0 || now - firstSeen >= cfg.minAge)
  }

  predicate Foreign(state: RelState) {
    state != Frozen && state != Approved
  }

  /** The entry after an observation, from the one before it, if any. */
  ghost predicate Follows(s: State, o: Observation, now: int, cfg: Config, e: Entry, signalled: bool) {
    var known := o.key in s.cache;
    var state := if known then s.cache[o.key].state else Candidate;
    var last := if known then s.cache[o.key].lastSignal else None;
    && e.seenCount == (if known then s.cache[o.key].seenCount + 1 else o.seenCount)
    && e.windows == (if known then s.cache[o.key].windows + 1 else o.windows)
    && e.firstSeen == (if known then s.cache[o.key].firstSeen else now)
    && e.state == (if s.mode == Learning && state == Candidate && Ready(e.seenCount, e.windows, e.firstSeen, now, cfg)
                   then RelState.Learned else state)
    && (signalled <==> (s.mode == FrozenObserve || s.mode == FrozenEnforce) && Foreign(e.state)
                       && (last.None? || now - last.value >= 300_000_000_000))
    && e.lastSignal == (if signalled then Some(now) else last) && e.dirty
  }

  /** An observation that passes counts for its own entry alone; any other changes nothing. */
  lemma LearnMeans(s: State, o: Observation, now: int, cfg: Config)
    ensures var t := LearnOne(s, o, now, cfg);
      if !Passes(s, o, cfg) then t == s
      else
        && t.mode == s.mode && t.cache.Keys == s.cache.Keys + {o.key}
        && (forall k | k in s.cache && k != o.key :: t.cache[k] == s.cache[k])
        && (t.signals == s.signals || t.signals == s.signals + [Signal(o.key, now)])
        && Follows(s, o, now, cfg, t.cache[o.key], t.signals != s.signals)
  {
  }

  // ---------------------------------------------------------------- flushes and freezes

  /** Promoted when the flush comes. */
  predicate Ripens(s: State, e: Entry, now: int, cfg: Config) {
    s.mode == Learning && e.state == Candidate && Ready(e.seenCount, e.windows, e.firstSeen, now, cfg)
  }

  /** With a store, a flush promotes what is ready, hands out exactly the entries that were marked or promoted,
      as they then are, and leaves every entry unmarked. Without one it does nothing. */
  lemma FlushMeans(s: State, now: int, cfg: Config, k: string)
    ensures var (t, out) := Flushed(s, now, cfg);
      if !cfg.hasStore then t == s && out == map[]
      else
        && t.mode == s.mode && t.signals == s.signals && t.cache.Keys == s.cache.Keys && out.Keys <= s.cache.Keys
        && (k in s.cache ==>
              var (e, ripe) := (s.cache[k], Ripens(s, s.cache[k], now, cfg));
              var state := if ripe then RelState.Learned else e.state;
              && t.cache[k] == e.(state := state, dirty := false)
              && (k in out <==> e.dirty || ripe) && (k in out ==> out[k] == e.(state := state, dirty := true)))
  {
    if cfg.hasStore && k in s.cache { assert k in FlushPromoted(s, now, cfg); }
  }

  /** A freeze makes the graph frozen, and what was learned or approved frozen and marked; nothing else changes. */
  lemma FreezeMeans(s: State, k: string)
    ensures var t := FreezeAll(s);
      && t.mode == FrozenObserve && t.signals == s.signals && t.cache.Keys == s.cache.Keys
      && (k in s.cache ==>
            t.cache[k] == if s.cache[k].state == RelState.Learned || s.cache[k].state == Approved
                          then s.cache[k].(state := Frozen, dirty := true) else s.cache[k])
  {
  }

  // ---------------------------------------------------------------- loads

  /** The relationships known before the i-th row. */
  function Known(s: State, rows: seq<Stored>, i: nat): set<string>
    requires i <= |rows|
  {
    s.cache.Keys + set j | 0 <= j < i :: rows[j].key
  }

  /** The i-th row is new and there is no room for it. */
  predicate Stuck(s: State, rows: seq<Stored>, i: nat, cfg: Config)
    requires i < |rows|
  {
    rows[i].key !in Known(s, rows, i) && |Known(s, rows, i)| >= cfg.maxCached
  }

  /** The load stops before the n-th row. */
  ghost predicate Reaches(s: State, rows: seq<Stored>, n: nat, cfg: Config) {
    && n <= |rows| && (forall i | 0 <= i < n :: !Stuck(s, rows, i, cfg)) && (n < |rows| ==> Stuck(s, rows, n, cfg))
  }

  /** The cache after the first i rows, all of which found room. */
  function Taken(s: State, rows: seq<Stored>, i: nat): State
    requires i <= |rows|
  {
    if i == 0 then s else TakenOne(Taken(s, rows, i - 1), rows[i - 1])
  }

  function TakenOne(s: State, row: Stored): State {
    if row.key in s.cache then s else s.(cache := s.cache[row.key := FromStore(row)])
  }

  lemma TakesOne(s: State, rows: seq<Stored>, cfg: Config)
    requires rows != [] && !NoRoom(s, rows[0], cfg)
    ensures TakeIn(s, rows, cfg) == TakeIn(TakenOne(s, rows[0]), rows[1..], cfg)
  {
  }

  lemma TakesNone(s: State, rows: seq<Stored>, cfg: Config)
    requires rows == [] || NoRoom(s, rows[0], cfg)
    ensures TakeIn(s, rows, cfg) == s
  {
  }

  lemma {:induction false} KnownIsTaken(s: State, rows: seq<Stored>, i: nat)
    requires i <= |rows|
    ensures Taken(s, rows, i).cache.Keys == Known(s, rows, i)
  {
    if i > 0 { KnownIsTaken(s, rows, i - 1); }
  }

  predicate NoRoom(s: State, row: Stored, cfg: Config) {
    row.key !in s.cache && |s.cache| >= cfg.maxCached
  }

  lemma StuckIff(s: State, rows: seq<Stored>, i: nat, cfg: Config)
    requires i < |rows|
    ensures NoRoom(Taken(s, rows, i), rows[i], cfg) <==> Stuck(s, rows, i, cfg)
  {
    KnownIsTaken(s, rows, i);
    assert |Taken(s, rows, i).cache| == |Taken(s, rows, i).cache.Keys|;
  }

  lemma TakenOn(s: State, rows: seq<Stored>, cfg: Config, i: nat)
    requires i < |rows| && !Stuck(s, rows, i, cfg)
    ensures TakeIn(Taken(s, rows, i), rows[i..], cfg) == TakeIn(Taken(s, rows, i + 1), rows[i + 1..], cfg)
  {
    StuckIff(s, rows, i, cfg);
    assert rows[i..][0] == rows[i] && rows[i..][1..] == rows[i + 1..];
    TakesOne(Taken(s, rows, i), rows[i..], cfg);
  }

  lemma TakenEnd(s: State, rows: seq<Stored>, cfg: Config, n: nat)
    requires n <= |rows| && (n < |rows| ==> Stuck(s, rows, n, cfg))
    ensures TakeIn(Taken(s, rows, n), rows[n..], cfg) == Taken(s, rows, n)
  {
    if n < |rows| { StuckIff(s, rows, n, cfg); }
    TakesNone(Taken(s, rows, n), rows[n..], cfg);
  }

  lemma {:induction false} TakenFrom(s: State, rows: seq<Stored>, n: nat, cfg: Config, i: nat)
    requires i <= n && Reaches(s, rows, n, cfg)
    ensures TakeIn(Taken(s, rows, i), rows[i..], cfg) == Taken(s, rows, n)
    decreases n - i
  {
    if i < n {
      assert !Stuck(s, rows, i, cfg);
      TakenOn(s, rows, cfg, i);
      TakenFrom(s, rows, n, cfg, i + 1);
    } else {
      TakenEnd(s, rows, cfg, n);
    }
  }

  /** A stored relationship as it enters the cache. */
  predicate Enters(e: Entry, row: Stored) {
    && e.state == row.state && e.seenCount == row.seenCount && e.windows == row.windows
    && e.firstSeen == row.firstSeen && e.lastSignal == None && !e.dirty
  }

  predicate FirstOf(rows: seq<Stored>, n: nat, k: string, i: nat)
    requires n <= |rows|
  {
    i < n && rows[i].key == k && forall j | 0 <= j < i :: rows[j].key != k
  }

  lemma {:induction false} TakenMeans(s: State, rows: seq<Stored>, n: nat, k: string, i: nat)
    requires n <= |rows|
    ensures var t := Taken(s, rows, n);
      && t.mode == s.mode && t.signals == s.signals
      && (k in s.cache ==> k in t.cache && t.cache[k] == s.cache[k])
      && (k !in s.cache && FirstOf(rows, n, k, i) ==> k in t.cache && Enters(t.cache[k], rows[i]))
      && (k !in s.cache && (forall j | 0 <= j < n :: rows[j].key != k) ==> k !in t.cache)
  {
    if n > 0 { TakenMeans(s, rows, n - 1, k, i); }
  }

  /** A load keeps what is there and takes in, of the rows up to the first that is new and finds no room, the
      first of each relationship. */
  lemma LoadMeans(s: State, rows: seq<Stored>, n: nat, cfg: Config, k: string, i: nat)
    requires cfg.hasStore && Reaches(s, rows, n, cfg)
    ensures var t := Loaded(s, Some(rows), cfg);
      && t.mode == s.mode && t.signals == s.signals
      && (k in s.cache ==> k in t.cache && t.cache[k] == s.cache[k])
      && (k !in s.cache && FirstOf(rows, n, k, i) ==> k in t.cache && Enters(t.cache[k], rows[i]))
      && (k !in s.cache && (forall j | 0 <= j < n :: rows[j].key != k) ==> k !in t.cache)
  {
    TakenFrom(s, rows, n, cfg, 0);
    assert rows[0..] == rows;
    TakenMeans(s, rows, n, k, i);
  }

  /** Without a store, or when it fails, a load changes nothing. */
  lemma LoadFails(s: State, listed: Option<seq<Stored>>, cfg: Config)
    requires !cfg.hasStore || listed.None?
    ensures Loaded(s, listed, cfg) == s
  {
  }

  // ---------------------------------------------------------------- what an entry tallies

  /** The observations of a relationship that the guard lets pass. */
  function Sighted(ops: seq<Op>, k: string): nat {
    if ops == [] then 0
    else
      var (before, op) := (Sighted(ops[..|ops| - 1], k), ops[|ops| - 1]);
      if op.LearnOp? && op.o.key == k && op.o.verdict != DenyLearning then before + 1 else before
  }

  lemma StepTallies(s: State, op: Op, cfg: Config, k: string)
    requires k in s.cache
    ensures var (t, more) := (Step(s, op, cfg),
                              if op.LearnOp? && op.o.key == k && op.o.verdict != DenyLearning then 1 else 0);
      && k in t.cache && t.cache[k].seenCount == s.cache[k].seenCount + more
      && t.cache[k].windows == s.cache[k].windows + more && t.cache[k].firstSeen == s.cache[k].firstSeen
  {
    match op
    case LearnOp(o, now) => LearnMeans(s, o, now, cfg);
    case FlushOp(now) => FlushMeans(s, now, cfg, k);
    case FreezeOp => FreezeMeans(s, k);
    case LoadOp(listed) => if listed.Some? { TakenIn(s, listed.value, cfg, k); }
  }

  /** Over any run a known relationship stays known, as old as it was, and counts every observation of it that
      passes the guard, once as a sighting and once as a window. */
  lemma {:induction false} RunTallies(s: State, ops: seq<Op>, cfg: Config, k: string)
    requires k in s.cache
    ensures var t := Run(s, ops, cfg);
      && k in t.cache && t.cache[k].seenCount == s.cache[k].seenCount + Sighted(ops, k)
      && t.cache[k].windows == s.cache[k].windows + Sighted(ops, k) && t.cache[k].firstSeen == s.cache[k].firstSeen
  {
    if ops != [] {
      RunTallies(s, ops[..|ops| - 1], cfg, k);
      StepTallies(Run(s, ops[..|ops| - 1], cfg), ops[|ops| - 1], cfg, k);
    }
  }

  // ---------------------------------------------------------------- what the store holds

  /** Everything handed out or loaded over a run, the latest of each relationship. */
  function Record(s: State, ops: seq<Op>, cfg: Config): map<string, Entry> {
    if ops == [] then map[]
    else
      var (record, before, op) := (Record(s, ops[..|ops| - 1], cfg), Run(s, ops[..|ops| - 1], cfg), ops[|ops| - 1]);
      match op
      case FlushOp(now) => record + Flushed(before, now, cfg).1
      case LoadOp(_) =>
        record + map k | k in Step(before, op, cfg).cache && k !in before.cache :: Step(before, op, cfg).cache[k]
      case _ => record
  }

  /** But for its mark, an entry is as it was recorded. */
  ghost predicate Recorded(cache: map<string, Entry>, record: map<string, Entry>, k: string) {
    k in cache && !cache[k].dirty ==> k in record && record[k].(dirty := false) == cache[k]
  }

  lemma RecordStep(s: State, op: Op, record: map<string, Entry>, record': map<string, Entry>, cfg: Config, k: string)
    requires Recorded(s.cache, record, k)
    requires match op
      case FlushOp(now) => record' == record + Flushed(s, now, cfg).1
      case LoadOp(_) =>
        record' == record + map j | j in Step(s, op, cfg).cache && j !in s.cache :: Step(s, op, cfg).cache[j]
      case _ => record' == record
    ensures Recorded(Step(s, op, cfg).cache, record', k)
  {
    match op
    case LearnOp(o, now) => LearnMeans(s, o, now, cfg);
    case FlushOp(now) =>
      FlushMeans(s, now, cfg, k);
      if cfg.hasStore && k !in s.cache { assert k !in Flushed(s, now, cfg).0.cache.Keys; }
    case FreezeOp => FreezeMeans(s, k);
    case LoadOp(listed) => if listed.Some? { TakenIn(s, listed.value, cfg, k); }
  }

  /** Whatever happened since an empty start, every unmarked entry is recorded as it is. */
  lemma {:induction false} AlwaysRecorded(s: State, ops: seq<Op>, cfg: Config, k: string)
    requires s.cache == map[]
    ensures Recorded(Run(s, ops, cfg).cache, Record(s, ops, cfg), k)
  {
    if ops != [] {
      var (before, op) := (ops[..|ops| - 1], ops[|ops| - 1]);
      AlwaysRecorded(s, before, cfg, k);
      RecordStep(Run(s, before, cfg), op, Record(s, before, cfg), Record(s, ops, cfg), cfg, k);
    }
  }

  /** So after one more flush the store has every relationship exactly as the cache does. */
  lemma NothingIsLost(s: State, ops: seq<Op>, now: int, cfg: Config, k: string)
    requires s.cache == map[] && cfg.hasStore && k in Run(s, ops, cfg).cache
    ensures var (t, record) := (Run(s, ops + [FlushOp(now)], cfg), Record(s, ops + [FlushOp(now)], cfg));
      k in t.cache && k in record && record[k].(dirty := false) == t.cache[k]
  {
    var all := ops + [FlushOp(now)];
    assert all[..|ops|] == ops;
    AlwaysRecorded(s, all, cfg, k);
    FlushMeans(Run(s, ops, cfg), now, cfg, k);
  }
}
