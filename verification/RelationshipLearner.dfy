/** The relationship learner: candidates are counted, promoted, and after a freeze only signalled.
    Times are nanosecond counts. */
module RelationshipLearner {
  import opened Text

  datatype Mode = Learning | FrozenObserve | FrozenEnforce

  datatype RelState = Candidate | Learned | Frozen | Approved | OtherState(name: string)

  /** What the guard decides about an observed relationship; evidence-only and candidate-only relationships
      are stored like any other. */
  datatype Verdict = DenyLearning | EvidenceOnly | CandidateOnly | AllowLearning

  datatype Observation = Observation(key: string, seenCount: nat, windows: int, verdict: Verdict)

  datatype Entry = Entry(state: RelState, seenCount: nat, windows: int, firstSeen: int, lastSignal: Option<int>,
      dirty: bool)

  /** A relationship as the store lists it. */
  datatype Stored = Stored(key: string, state: RelState, seenCount: nat, windows: int, firstSeen: int)

  datatype Signal = Signal(key: string, at: int)

  datatype Config = Config(minSeen: nat, minWindows: int, minAge: int, maxCached: int, hasStore: bool)

  /** `signals` is the history of emitted freeze violations; nothing reads it. */
  datatype State = State(mode: Mode, cache: map<string, Entry>, signals: seq<Signal>)

  const COOLDOWN: int := 300_000_000_000

  predicate IsFrozenMode(mode: Mode) {
    mode == FrozenObserve || mode == FrozenEnforce
  }

  predicate IsAccepted(e: Entry) {
    e.state == Frozen || e.state == Approved
  }

  // ---------------------------------------------------------------- on values

  predicate ShouldPromote(e: Entry, now: int, cfg: Config) {
    && (cfg.minSeen > 0 ==> e.seenCount >= cfg.minSeen)
    && (cfg.minWindows > 0 ==> e.windows >= cfg.minWindows)
    && (cfg.minAge > 0 ==> now - e.firstSeen >= cfg.minAge)
  }

  function Promoted(e: Entry, mode: Mode, now: int, cfg: Config): Entry {
    if mode == Learning && e.state == Candidate && ShouldPromote(e, now, cfg) then e.(state := Learned) else e
  }

  predicate Violates(e: Entry, mode: Mode, now: int) {
    IsFrozenMode(mode) && !IsAccepted(e) && (e.lastSignal.None? || now - e.lastSignal.value >= COOLDOWN)
  }

  predicate Tracked(s: State, o: Observation, cfg: Config) {
    o.verdict != DenyLearning && (o.key in s.cache || |s.cache| < cfg.maxCached)
  }

  /** The entry with this observation counted. */
  function Counted(s: State, o: Observation, now: int): Entry {
    if o.key in s.cache then s.cache[o.key].(seenCount := s.cache[o.key].seenCount + 1,
                                                   windows := s.cache[o.key].windows + 1)
    else Entry(Candidate, o.seenCount, o.windows, now, None, false)
  }

  function LearnOne(s: State, o: Observation, now: int, cfg: Config): State {
    if !Tracked(s, o, cfg) then s
    else
      var e := Promoted(Counted(s, o, now), s.mode, now, cfg);
      if Violates(e, s.mode, now) then
        State(s.mode, s.cache[o.key := e.(lastSignal := Some(now), dirty := true)], s.signals + [Signal(o.key, now)])
      else
        s.(cache := s.cache[o.key := e.(dirty := true)])
  }

  function LearnAll(s: State, os: seq<Observation>, now: int, cfg: Config): State {
    if os == [] then s else LearnOne(LearnAll(s, os[..|os| - 1], now, cfg), os[|os| - 1], now, cfg)
  }

  /** A flush promotes first, then hands out what is dirty. */
  function FlushPromoted(s: State, now: int, cfg: Config): map<string, Entry> {
    map k | k in s.cache ::
      var e := Promoted(s.cache[k], s.mode, now, cfg);
      if e != s.cache[k] then e.(dirty := true) else e
  }

  function Flushed(s: State, now: int, cfg: Config): (State, map<string, Entry>) {
    if !cfg.hasStore then (s, map[])
    else
      var all := FlushPromoted(s, now, cfg);
      (s.(cache := map k | k in all :: all[k].(dirty := false)), map k | k in all && all[k].dirty :: all[k])
  }

  function Fixed(e: Entry): Entry {
    if e.state == Learned || e.state == Approved then e.(state := Frozen, dirty := true) else e
  }

  function FreezeAll(s: State): State {
    State(FrozenObserve, map k | k in s.cache :: Fixed(s.cache[k]), s.signals)
  }

  function FromStore(row: Stored): Entry {
    Entry(row.state, row.seenCount, row.windows, row.firstSeen, None, false)
  }

  /** Listed relationships enter in order, over nothing that is there, until the cache is full. */
  function TakeIn(s: State, rows: seq<Stored>, cfg: Config): State
    decreases |rows|
  {
    if rows == [] then s
    else if rows[0].key in s.cache then TakeIn(s, rows[1..], cfg)
    else if |s.cache| >= cfg.maxCached then s
    else TakeIn(s.(cache := s.cache[rows[0].key := FromStore(rows[0])]), rows[1..], cfg)
  }

  /** `listed` is what the store answers, unless it fails. */
  function Loaded(s: State, listed: Option<seq<Stored>>, cfg: Config): State {
    if !cfg.hasStore || listed.None? then s else TakeIn(s, listed.value, cfg)
  }

  // ---------------------------------------------------------------- in place

  class Learner {
    const cfg: Config
    var mode: Mode
    var cache: map<string, Entry>
    ghost var signals: seq<Signal>

    ghost function Value(): State
      reads this
    {
      State(mode, cache, signals)
    }

    constructor (mode: Mode, cfg: Config)
      ensures this.cfg == (if cfg.maxCached <= 0 then cfg.(maxCached := 50_000) else cfg)
      ensures Value() == State(mode, map[], [])
    {
      this.cfg := if cfg.maxCached <= 0 then cfg.(maxCached := 50_000) else cfg;
      this.mode, cache, signals := mode, map[], [];
    }

    method LearnSingle(o: Observation, now: int) returns (signalled: bool)
      modifies this
      ensures Value() == LearnOne(old(Value()), o, now, cfg)
      ensures signals == if signalled then old(signals) + [Signal(o.key, now)] else old(signals)
    {
      signalled := false;
      if o.verdict == DenyLearning { return; }
      var e := Entry(Candidate, o.seenCount, o.windows, now, None, false);
      if o.key in cache {
        e := cache[o.key];
        e := e.(seenCount := e.seenCount + 1, windows := e.windows + 1);
      } else if |cache| >= cfg.maxCached {
        return;
      }
      if mode == Learning && e.state == Candidate && ShouldPromote(e, now, cfg) { e := e.(state := Learned); }
      if IsFrozenMode(mode) && !IsAccepted(e) && (e.lastSignal.None? || now - e.lastSignal.value >= COOLDOWN) {
        e := e.(lastSignal := Some(now));
        signals := signals + [Signal(o.key, now)];
        signalled := true;
      }
      cache := cache[o.key := e.(dirty := true)];
    }

    method Learn(os: seq<Observation>, now: int)
      modifies this
      ensures Value() == LearnAll(old(Value()), os, now, cfg)
    {
      var i := 0;
      while i < |os|
        invariant 0 <= i <= |os|
        invariant Value() == LearnAll(old(Value()), os[..i], now, cfg)
      {
        assert os[..i + 1][..i] == os[..i];
        var _ := LearnSingle(os[i], now);
        i := i + 1;
      }
      assert os[..i] == os;
    }

    /** Promote in place, in any order. */
    method PromoteEligible(now: int)
      modifies this`cache
      ensures cache == FlushPromoted(old(Value()), now, cfg)
    {
      if mode != Learning { return; }
      var rest := cache.Keys;
      while rest != {}
        invariant rest <= cache.Keys == old(cache).Keys
        invariant forall k | k in cache :: cache[k] == if k in rest then old(cache)[k]
          else FlushPromoted(old(Value()), now, cfg)[k]
        decreases |rest|
      {
        var k :| k in rest;
        if cache[k].state == Candidate && ShouldPromote(cache[k], now, cfg) {
          cache := cache[k := cache[k].(state := Learned, dirty := true)];
        }
        rest := rest - {k};
      }
    }

    /** Hand out the dirty entries and mark them clean, in any order. */
    method Drain() returns (flushed: map<string, Entry>)
      modifies this`cache
      ensures flushed == map k | k in old(cache) && old(cache)[k].dirty :: old(cache)[k]
      ensures cache == map k | k in old(cache) :: old(cache)[k].(dirty := false)
    {
      flushed := map[];
      var rest := cache.Keys;
      while rest != {}
        invariant rest <= cache.Keys == old(cache).Keys
        invariant forall k | k in cache :: cache[k] == if k in rest then old(cache)[k]
          else old(cache)[k].(dirty := false)
        invariant flushed == map k | k in old(cache) && k !in rest && old(cache)[k].dirty :: old(cache)[k]
        decreases |rest|
      {
        var k :| k in rest;
        if cache[k].dirty {
          flushed := flushed[k := cache[k]];
          cache := cache[k := cache[k].(dirty := false)];
        }
        rest := rest - {k};
      }
    }

    method FlushDirty(now: int) returns (flushed: map<string, Entry>)
      modifies this`cache
      ensures (Value(), flushed) == Flushed(old(Value()), now, cfg)
    {
      if !cfg.hasStore { return map[]; }
      PromoteEligible(now);
      flushed := Drain();
    }

    method Freeze()
      modifies this`mode, this`cache
      ensures Value() == FreezeAll(old(Value()))
    {
      mode := FrozenObserve;
      var rest := cache.Keys;
      while rest != {}
        invariant mode == FrozenObserve && rest <= cache.Keys == old(cache).Keys
        invariant forall k | k in cache :: cache[k] == if k in rest then old(cache)[k] else Fixed(old(cache)[k])
        decreases |rest|
      {
        var k :| k in rest;
        if cache[k].state == Learned || cache[k].state == Approved {
          cache := cache[k := cache[k].(state := Frozen, dirty := true)];
        }
        rest := rest - {k};
      }
    }

    method LoadFromStore(listed: Option<seq<Stored>>) returns (ok: bool)
      modifies this`cache
      ensures Value() == Loaded(old(Value()), listed, cfg)
      ensures ok == (cfg.hasStore ==> listed.Some?)
    {
      if !cfg.hasStore { return true; }
      if listed.None? { return false; }
      var rows := listed.value;
      var i := 0;
      while i < |rows|
        invariant 0 <= i <= |rows|
        invariant TakeIn(Value(), rows[i..], cfg) == TakeIn(old(Value()), rows, cfg)
      {
        assert rows[i..][1..] == rows[i + 1..];
        if rows[i].key !in cache {
          if |cache| >= cfg.maxCached { return true; }
          cache := cache[rows[i].key := FromStore(rows[i])];
        }
        i := i + 1;
      }
      return true;
    }
  }

  // ---------------------------------------------------------------- runs

  /** Observations and flushes read the clock before they take their turn, so their times come in any order. */
  datatype Op =
    | LearnOp(o: Observation, now: int)
    | FlushOp(now: int)
    | FreezeOp
    | LoadOp(listed: Option<seq<Stored>>)

  function Step(s: State, op: Op, cfg: Config): State {
    match op
    case LearnOp(o, now) => LearnOne(s, o, now, cfg)
    case FlushOp(now) => Flushed(s, now, cfg).0
    case FreezeOp => FreezeAll(s)
    case LoadOp(listed) => Loaded(s, listed, cfg)
  }

  function Run(s: State, ops: seq<Op>, cfg: Config): State {
    if ops == [] then s else Step(Run(s, ops[..|ops| - 1], cfg), ops[|ops| - 1], cfg)
  }

  function LearnOps(os: seq<Observation>, now: int): seq<Op> {
    seq(|os|, i requires 0 <= i < |os| => LearnOp(os[i], now))
  }

  /** A batch is its observations one by one, so runs of single observations cover batches. */
  lemma {:induction false} BatchIsRun(s: State, os: seq<Observation>, now: int, cfg: Config)
    ensures LearnAll(s, os, now, cfg) == Run(s, LearnOps(os, now), cfg)
  {
    if os != [] {
      BatchIsRun(s, os[..|os| - 1], now, cfg);
      assert LearnOps(os, now)[..|os| - 1] == LearnOps(os[..|os| - 1], now);
    }
  }

  function Accepted(s: State): set<string> {
    set k | k in s.cache && IsAccepted(s.cache[k])
  }

  predicate NoneLearned(s: State) {
    forall k | k in s.cache :: s.cache[k].state != Learned
  }

  /** The relationships a load may bring in. */
  function KeysOf(op: Op): set<string> {
    if op.LoadOp? && op.listed.Some? then set i | 0 <= i < |op.listed.value| :: op.listed.value[i].key else {}
  }

  function Listed(ops: seq<Op>): set<string> {
    if ops == [] then {} else Listed(ops[..|ops| - 1]) + KeysOf(ops[|ops| - 1])
  }

  /** What is there stays as it is, and only what is listed is added. */
  lemma {:induction false} TakenIn(s: State, rows: seq<Stored>, cfg: Config, k: string)
    ensures var t := TakeIn(s, rows, cfg);
      && t.mode == s.mode && t.signals == s.signals
      && (k in s.cache ==> k in t.cache && t.cache[k] == s.cache[k])
      && (k !in s.cache && k in t.cache ==>
            t.cache[k].lastSignal == None && exists i :: 0 <= i < |rows| && rows[i].key == k)
    decreases |rows|
  {
    if rows != [] && (rows[0].key in s.cache || |s.cache| < cfg.maxCached) {
      var s1 := if rows[0].key in s.cache then s else s.(cache := s.cache[rows[0].key := FromStore(rows[0])]);
      TakenIn(s1, rows[1..], cfg, k);
      if k !in s1.cache && k in TakeIn(s1, rows[1..], cfg).cache {
        var i :| 0 <= i < |rows[1..]| && rows[1..][i].key == k;
        assert rows[i + 1].key == k;
      }
    }
  }

  /** One step in a frozen mode, seen from a relationship that it does not newly load. */
  lemma FrozenStep(s: State, op: Op, cfg: Config, k: string)
    requires IsFrozenMode(s.mode) && (k in s.cache ==> s.cache[k].state != Learned)
    requires k in s.cache || k !in KeysOf(op)
    ensures var t := Step(s, op, cfg);
      && IsFrozenMode(t.mode) && (k in s.cache ==> k in t.cache) && (k in t.cache ==> t.cache[k].state != Learned)
      && (k in Accepted(t) <==> k in Accepted(s))
  {
    match op
    case LearnOp(_, _) =>
    case FlushOp(now) => if k in s.cache && cfg.hasStore { assert k in FlushPromoted(s, now, cfg); }
    case FreezeOp =>
    case LoadOp(listed) => if listed.Some? { TakenIn(s, listed.value, cfg, k); }
  }

  /** Learned, approved or frozen. */
  predicate Vouched(s: State, k: string) {
    k in s.cache && (IsAccepted(s.cache[k]) || s.cache[k].state == Learned)
  }

  lemma {:induction false} FreezeFixes(s: State, ops: seq<Op>, cfg: Config, k: string)
    requires k in s.cache || k !in Listed(ops)
    ensures var t := Run(FreezeAll(s), ops, cfg);
      && IsFrozenMode(t.mode) && (k in s.cache ==> k in t.cache) && (k in t.cache ==> t.cache[k].state != Learned)
      && (k in Accepted(t) <==> Vouched(s, k))
  {
    if ops != [] {
      FreezeFixes(s, ops[..|ops| - 1], cfg, k);
      FrozenStep(Run(FreezeAll(s), ops[..|ops| - 1], cfg), ops[|ops| - 1], cfg, k);
    }
  }

  /** Freeze is final: it accepts exactly what was learned, approved or frozen, and from then on nothing
      observed, flushed or frozen again changes that or counts as learned. Only a load can add to it, and only
      relationships that were unknown at the freeze and are listed by the store. */
  lemma FreezeIsFinal(s: State, ops: seq<Op>, cfg: Config)
    ensures var t := Run(FreezeAll(s), ops, cfg);
      && IsFrozenMode(t.mode)
      && (forall k | k in s.cache || k !in Listed(ops) ::
            (k in Accepted(t) <==> Vouched(s, k)) && (k in t.cache ==> t.cache[k].state != Learned))
      && (Listed(ops) == {} ==> NoneLearned(t) && Accepted(t) == set k | k in s.cache && Vouched(s, k))
  {
    var t := Run(FreezeAll(s), ops, cfg);
    FrozenMode(s, ops, cfg);
    forall k | k in s.cache || k !in Listed(ops)
      ensures (k in Accepted(t) <==> Vouched(s, k)) && (k in t.cache ==> t.cache[k].state != Learned)
    {
      FreezeFixes(s, ops, cfg, k);
    }
  }

  lemma {:induction false} FrozenMode(s: State, ops: seq<Op>, cfg: Config)
    ensures IsFrozenMode(Run(FreezeAll(s), ops, cfg).mode)
  {
    if ops != [] {
      FrozenMode(s, ops[..|ops| - 1], cfg);
      var op := ops[|ops| - 1];
      if op.LoadOp? && op.listed.Some? { TakenIn(Run(FreezeAll(s), ops[..|ops| - 1], cfg), op.listed.value, cfg, ""); }
    }
  }

  // ---------------------------------------------------------------- signals

  /** A cache as a start finds it: nothing in it has signalled yet. */
  ghost predicate Quiet(cache: map<string, Entry>) {
    forall k | k in cache :: cache[k].lastSignal == None
  }

  /** The time of the last signal for a relationship. */
  function LastSignal(signals: seq<Signal>, key: string): Option<int> {
    if signals == [] then None
    else if signals[|signals| - 1].key == key then Some(signals[|signals| - 1].at)
    else LastSignal(signals[..|signals| - 1], key)
  }

  predicate SignalledWithin(signals: seq<Signal>, key: string, now: int) {
    exists i :: 0 <= i < |signals| && signals[i].key == key && now - signals[i].at < COOLDOWN
  }

  /** Entries remember their last signal; signals of one relationship are a cooldown apart. */
  ghost predicate SignalsOk(s: State) {
    && (forall k :: LastSignal(s.signals, k) == if k in s.cache then s.cache[k].lastSignal else None)
    && (forall i, j | 0 <= i < j < |s.signals| && s.signals[i].key == s.signals[j].key ::
      s.signals[j].at - s.signals[i].at >= COOLDOWN)
  }

  lemma {:induction false} LastSignalDecides(signals: seq<Signal>, key: string, now: int)
    requires forall i, j | 0 <= i < j < |signals| && signals[i].key == signals[j].key ::
      signals[j].at - signals[i].at >= COOLDOWN
    ensures var last := LastSignal(signals, key);
      && (SignalledWithin(signals, key, now) <==> last.Some? && now - last.value < COOLDOWN)
      && (forall i | 0 <= i < |signals| && signals[i].key == key :: last.Some? && signals[i].at <= last.value)
  {
    if signals != [] {
      var (before, last) := (signals[..|signals| - 1], signals[|signals| - 1]);
      LastSignalDecides(before, key, now);
      if SignalledWithin(before, key, now) {
        var i :| 0 <= i < |before| && before[i].key == key && now - before[i].at < COOLDOWN;
        assert signals[i].key == key;
      }
      if last.key == key {
        forall i | 0 <= i < |signals| && signals[i].key == key ensures signals[i].at <= last.at { }
      } else {
        assert forall i | 0 <= i < |before| :: before[i] == signals[i];
      }
    }
  }

  /** Neither counting nor promoting touches the signal time. */
  lemma EntrySignal(s: State, o: Observation, now: int, cfg: Config)
    requires Tracked(s, o, cfg)
    ensures var e := Promoted(Counted(s, o, now), s.mode, now, cfg);
      && e.lastSignal == (if o.key in s.cache then s.cache[o.key].lastSignal else None)
      && (IsFrozenMode(s.mode) ==> (IsAccepted(e) <==> o.key in Accepted(s)))
  {
  }

  predicate Signals(s: State, o: Observation, now: int, cfg: Config) {
    Tracked(s, o, cfg) && IsFrozenMode(s.mode) && o.key !in Accepted(s) && !SignalledWithin(s.signals, o.key, now)
  }

  lemma LearnSignals(s: State, o: Observation, now: int, cfg: Config)
    requires SignalsOk(s)
    ensures LearnOne(s, o, now, cfg).signals == if Signals(s, o, now, cfg) then s.signals + [Signal(o.key, now)]
      else s.signals
  {
    LastSignalDecides(s.signals, o.key, now);
    if Tracked(s, o, cfg) { EntrySignal(s, o, now, cfg); }
  }

  /** The new entry, and the others, remember their last signal. */
  lemma LearnRemembers(s: State, o: Observation, now: int, cfg: Config, k: string)
    requires SignalsOk(s)
    ensures var t := LearnOne(s, o, now, cfg);
      LastSignal(t.signals, k) == if k in t.cache then t.cache[k].lastSignal else None
  {
    if Tracked(s, o, cfg) { EntrySignal(s, o, now, cfg); }
    assert (s.signals + [Signal(o.key, now)])[..|s.signals|] == s.signals;
  }

  lemma LearnKeepsSignals(s: State, o: Observation, now: int, cfg: Config)
    requires SignalsOk(s)
    ensures SignalsOk(LearnOne(s, o, now, cfg))
  {
    var t := LearnOne(s, o, now, cfg);
    LearnSignals(s, o, now, cfg);
    forall k ensures LastSignal(t.signals, k) == if k in t.cache then t.cache[k].lastSignal else None {
      LearnRemembers(s, o, now, cfg, k);
    }
    if Signals(s, o, now, cfg) { SignalAppended(s.signals, Signal(o.key, now)); }
  }

  lemma SignalAppended(signals: seq<Signal>, latest: Signal)
    requires forall i, j | 0 <= i < j < |signals| && signals[i].key == signals[j].key ::
      signals[j].at - signals[i].at >= COOLDOWN
    requires !SignalledWithin(signals, latest.key, latest.at)
    ensures var all := signals + [latest];
      forall i, j | 0 <= i < j < |all| && all[i].key == all[j].key :: all[j].at - all[i].at >= COOLDOWN
  {
  }

  lemma FlushSignals(s: State, now: int, cfg: Config)
    requires SignalsOk(s)
    ensures SignalsOk(Flushed(s, now, cfg).0)
  {
    forall k | k in s.cache ensures FlushPromoted(s, now, cfg)[k].lastSignal == s.cache[k].lastSignal { }
  }

  lemma LoadSignals(s: State, listed: Option<seq<Stored>>, cfg: Config)
    requires SignalsOk(s)
    ensures SignalsOk(Loaded(s, listed, cfg))
  {
    if listed.Some? {
      TakenIn(s, listed.value, cfg, "");
      forall k { TakenIn(s, listed.value, cfg, k); }
    }
  }

  lemma {:induction false} AlwaysSignalsOk(mode: Mode, cache: map<string, Entry>, ops: seq<Op>, cfg: Config)
    requires Quiet(cache)
    ensures SignalsOk(Run(State(mode, cache, []), ops, cfg))
  {
    if ops != [] {
      AlwaysSignalsOk(mode, cache, ops[..|ops| - 1], cfg);
      var s := Run(State(mode, cache, []), ops[..|ops| - 1], cfg);
      match ops[|ops| - 1]
      case LearnOp(o, now) => LearnKeepsSignals(s, o, now, cfg);
      case FlushOp(now) => FlushSignals(s, now, cfg);
      case FreezeOp =>
      case LoadOp(listed) => LoadSignals(s, listed, cfg);
    }
  }

  /** In any run, whatever it starts with and in whatever order its clocks are read, an observation signals
      exactly when the guard lets it pass, there is room for it, the graph is frozen, the relationship is not
      accepted and it has not signalled in the last five minutes. */
  lemma SignalsIff(mode: Mode, cache: map<string, Entry>, ops: seq<Op>, o: Observation, now: int, cfg: Config)
    requires Quiet(cache)
    ensures var s := Run(State(mode, cache, []), ops, cfg);
      LearnOne(s, o, now, cfg).signals == if Signals(s, o, now, cfg) then s.signals + [Signal(o.key, now)]
        else s.signals
  {
    AlwaysSignalsOk(mode, cache, ops, cfg);
    LearnSignals(Run(State(mode, cache, []), ops, cfg), o, now, cfg);
  }

  /** In any such run, signals of one relationship are at least five minutes apart. */
  lemma SignalsApart(mode: Mode, cache: map<string, Entry>, ops: seq<Op>, cfg: Config, i: nat, j: nat)
    requires Quiet(cache)
    requires var signals := Run(State(mode, cache, []), ops, cfg).signals;
      i < j < |signals| && signals[i].key == signals[j].key
    ensures var signals := Run(State(mode, cache, []), ops, cfg).signals; signals[j].at - signals[i].at >= COOLDOWN
  {
    AlwaysSignalsOk(mode, cache, ops, cfg);
  }

  // ---------------------------------------------------------------- promotion

  predicate Counts(e: Entry, cfg: Config) {
    (cfg.minSeen > 0 ==> e.seenCount >= cfg.minSeen) && (cfg.minWindows > 0 ==> e.windows >= cfg.minWindows)
  }

  /** The operation found the relationship old enough. */
  predicate Aged(op: Op, firstSeen: int, cfg: Config) {
    match op
    case LearnOp(_, now) => now - firstSeen >= cfg.minAge
    case FlushOp(now) => now - firstSeen >= cfg.minAge
    case _ => false
  }

  predicate Earned(e: Entry, ops: seq<Op>, cfg: Config) {
    Counts(e, cfg) && (cfg.minAge > 0 ==> exists i :: 0 <= i < |ops| && Aged(ops[i], e.firstSeen, cfg))
  }

  function LearnedKeys(cache: map<string, Entry>): set<string> {
    set k | k in cache && cache[k].state == Learned
  }

  /** What was learned when the run began, and what its loads brought in as learned. */
  function Brought(s: State, ops: seq<Op>, cfg: Config): set<string> {
    if ops == [] then LearnedKeys(s.cache)
    else
      var (before, op) := (Run(s, ops[..|ops| - 1], cfg), ops[|ops| - 1]);
      Brought(s, ops[..|ops| - 1], cfg)
      + if op.LoadOp? then LearnedKeys(Step(before, op, cfg).cache - before.cache.Keys) else {}
  }

  lemma EarnedLonger(e: Entry, e': Entry, ops: seq<Op>, op: Op, cfg: Config)
    requires Earned(e, ops, cfg) && Grown(e, e')
    ensures Earned(e', ops + [op], cfg)
  {
    if cfg.minAge > 0 {
      var i :| 0 <= i < |ops| && Aged(ops[i], e.firstSeen, cfg);
      assert (ops + [op])[i] == ops[i];
    }
  }

  lemma EarnedNow(e: Entry, ops: seq<Op>, op: Op, cfg: Config)
    requires Counts(e, cfg) && (cfg.minAge > 0 ==> Aged(op, e.firstSeen, cfg))
    ensures Earned(e, ops + [op], cfg)
  {
    assert (ops + [op])[|ops|] == op;
  }

  lemma BroughtMore(s: State, ops: seq<Op>, op: Op, cfg: Config, k: string)
    ensures k in Brought(s, ops, cfg) ==> k in Brought(s, ops + [op], cfg)
    ensures var (before, after) := (Run(s, ops, cfg), Step(Run(s, ops, cfg), op, cfg));
      op.LoadOp? && k !in before.cache && k in LearnedKeys(after.cache) ==> k in Brought(s, ops + [op], cfg)
  {
    assert (ops + [op])[..|ops|] == ops;
  }

  /** The same relationship, seen at least as often. */
  predicate Grown(e: Entry, e': Entry) {
    e'.firstSeen == e.firstSeen && e'.seenCount >= e.seenCount && e'.windows >= e.windows
  }

  /** What one step does to a relationship that is learned afterwards. */
  lemma StepLearns(s: State, op: Op, cfg: Config, k: string)
    requires k in Step(s, op, cfg).cache && Step(s, op, cfg).cache[k].state == Learned
    ensures var e := Step(s, op, cfg).cache[k];
      || (k !in s.cache && op.LoadOp?)
      || (k in s.cache && s.cache[k].state == Learned && Grown(s.cache[k], e))
      || (Counts(e, cfg) && (cfg.minAge > 0 ==> Aged(op, e.firstSeen, cfg)))
  {
    match op
    case LearnOp(_, _) =>
    case FlushOp(now) => if cfg.hasStore { assert k in FlushPromoted(s, now, cfg); }
    case FreezeOp =>
    case LoadOp(listed) => if listed.Some? { TakenIn(s, listed.value, cfg, k); }
  }

  /** A learned relationship has met every promotion threshold: its counts do, and some operation of the run
      found it old enough; unless it was learned when it came in. */
  lemma {:induction false} LearnedIsEarned(s: State, ops: seq<Op>, cfg: Config, k: string)
    requires k in Run(s, ops, cfg).cache && Run(s, ops, cfg).cache[k].state == Learned
    ensures k in Brought(s, ops, cfg) || Earned(Run(s, ops, cfg).cache[k], ops, cfg)
  {
    if ops != [] {
      var (prefix, op) := (ops[..|ops| - 1], ops[|ops| - 1]);
      assert ops == prefix + [op];
      var before := Run(s, prefix, cfg);
      var e := Step(before, op, cfg).cache[k];
      BroughtMore(s, prefix, op, cfg, k);
      StepLearns(before, op, cfg, k);
      if k in before.cache && before.cache[k].state == Learned && Grown(before.cache[k], e) {
        LearnedIsEarned(s, prefix, cfg, k);
        if k !in Brought(s, prefix, cfg) { EarnedLonger(before.cache[k], e, prefix, op, cfg); }
      } else if k in before.cache || !op.LoadOp? {
        EarnedNow(e, prefix, op, cfg);
      }
    }
  }

  /** And in learning mode a relationship that meets them is learned at its next observation or flush. */
  lemma EarnedIsLearned(s: State, o: Observation, now: int, cfg: Config, key: string)
    requires s.mode == Learning
    ensures Tracked(s, o, cfg) ==>
      var e := LearnOne(s, o, now, cfg).cache[o.key]; !(e.state == Candidate && ShouldPromote(e, now, cfg))
    ensures cfg.hasStore && key in s.cache ==>
      var e := Flushed(s, now, cfg).0.cache[key]; !(e.state == Candidate && ShouldPromote(e, now, cfg))
  {
    if key in s.cache { assert key in FlushPromoted(s, now, cfg); }
  }

  // ---------------------------------------------------------------- evidence

  /** A guard that lets a relationship pass decides nothing else: evidence-only and candidate-only ones are
      counted, promoted and signalled like allowed ones. */
  lemma VerdictIgnored(s: State, o: Observation, v: Verdict, now: int, cfg: Config)
    ensures o.verdict != DenyLearning && v != DenyLearning ==>
      LearnOne(s, o.(verdict := v), now, cfg) == LearnOne(s, o, now, cfg)
    ensures LearnOne(s, o.(verdict := DenyLearning), now, cfg) == s
  {
  }

  /** What an extractor reports each time: one sighting, here of an evidence-only relationship. */
  function Sighting(key: string, now: int): Op {
    LearnOp(Observation(key, 1, 1, EvidenceOnly), now)
  }

  function Sightings(key: string, n: nat, now: int): seq<Op> {
    if n == 0 then [] else Sightings(key, n - 1, now) + [Sighting(key, now)]
  }

  lemma RunMore(s: State, ops: seq<Op>, op: Op, cfg: Config)
    ensures Run(s, ops + [op], cfg) == Step(Run(s, ops, cfg), op, cfg)
  {
    assert (ops + [op])[..|ops|] == ops;
  }

  /** An entry after so many sightings. */
  predicate Seen(s: State, key: string, n: nat, firstSeen: int) {
    && s.mode == Learning && s.cache.Keys == {key} && s.cache[key].state in {Candidate, Learned}
    && s.cache[key].seenCount == n == s.cache[key].windows && s.cache[key].firstSeen == firstSeen
  }

  lemma {:induction false} SightingsCount(key: string, n: nat, now: int, cfg: Config)
    requires cfg.maxCached > 0 && n > 0
    ensures Seen(Run(State(Learning, map[], []), Sightings(key, n, now), cfg), key, n, now)
  {
    var s := State(Learning, map[], []);
    RunMore(s, Sightings(key, n - 1, now), Sighting(key, now), cfg);
    if n > 1 { SightingsCount(key, n - 1, now, cfg); }
  }

  /** Seen often enough, the last time when it is old enough, it becomes learned under every setting. */
  lemma EvidenceIsPromoted(key: string, n: nat, now: int, late: int, cfg: Config)
    requires cfg.maxCached > 0 && n > 0 && n + 1 >= cfg.minSeen && n + 1 >= cfg.minWindows && late - now >= cfg.minAge
    ensures var s := Run(State(Learning, map[], []), Sightings(key, n, now) + [Sighting(key, late)], cfg);
      key in s.cache && s.cache[key].state == Learned
  {
    SightingsCount(key, n, now, cfg);
    RunMore(State(Learning, map[], []), Sightings(key, n, now), Sighting(key, late), cfg);
  }
}
