/** From a running cache through the baseline table into a new cache. */
module BaselineRestart {
  import opened SourceBaseline
  import opened SourceBaselineRuns
  import opened BaselineRows

  ghost predicate Named(w: World) {
    "" !in w.s.m && "" !in w.record && "" !in w.s.dirty
  }

  lemma {:induction false} RestoreNamed(w: World, snaps: seq<Snapshot>, cfg: Config)
    requires Named(w)
    ensures Named(RestoreAll(w, snaps, cfg))
    decreases |snaps|
  {
    if snaps != [] && !NoRoom(w.s, snaps[0], cfg) { RestoreNamed(RestoreOne(w, snaps[0]), snaps[1..], cfg); }
  }

  lemma {:induction false} AlwaysNamed(ops: seq<Op>, cfg: Config)
    requires forall i | 0 <= i < |ops| && ops[i].Learned? :: ops[i].o.source != ""
    ensures Named(After(ops, cfg))
  {
    if ops != [] {
      var (w, op) := (After(ops[..|ops| - 1], cfg), ops[|ops| - 1]);
      AlwaysNamed(ops[..|ops| - 1], cfg);
      if op.Restore? { RestoreNamed(w, op.snaps, cfg); }
    }
  }

  /** Of snapshots of new, distinct sources exactly the first ones that fit are taken in. */
  lemma {:induction false} RestoreTakesPrefix(s: State, snaps: seq<Snapshot>, cfg: Config, i: nat)
    requires forall j | 0 <= j < |snaps| :: snaps[j].source != "" && snaps[j].source !in s.m
    requires forall j, k | 0 <= j < k < |snaps| :: snaps[j].source != snaps[k].source
    requires i < |snaps| && |s.m| <= cfg.maxSources
    ensures var (m, source) := (Restored(s, snaps, cfg).m, snaps[i].source);
      (source in m <==> |s.m| + i < cfg.maxSources) && (source in m ==> m[source] == Dated(snaps[i].profile))
    decreases |snaps|
  {
    if !NoRoom(s, snaps[0], cfg) {
      PutSize(s.m, snaps[0].source, Dated(snaps[0].profile));
      var s1 := RestoredOne(s, snaps[0]);
      if i == 0 {
        RestoreKeepsOthers(s1, snaps[1..], cfg, snaps[0].source);
      } else {
        assert snaps[1..][i - 1] == snaps[i];
        RestoreTakesPrefix(s1, snaps[1..], cfg, i - 1);
      }
    }
  }

  lemma {:induction false} RestoreKeepsOthers(s: State, snaps: seq<Snapshot>, cfg: Config, k: string)
    requires k in s.m && forall j | 0 <= j < |snaps| :: snaps[j].source != k
    ensures k in Restored(s, snaps, cfg).m && Restored(s, snaps, cfg).m[k] == s.m[k]
    decreases |snaps|
  {
    if snaps != [] && !NoRoom(s, snaps[0], cfg) { RestoreKeepsOthers(RestoredOne(s, snaps[0]), snaps[1..], cfg, k); }
  }

  lemma ShapedIsStorable(p: Profile)
    requires Shaped(p)
    ensures Storable(p) && Dated(p) == p
  {
  }

  // ---------------------------------------------------------------- the baseline table

  /** The store's table: one row for each source and metric. */
  type Table = map<(string, Metric), Row>

  predicate Kept(source: string, p: Profile) {
    source != "" && p.obsCount > 0
  }

  predicate Covers(profiles: map<string, Profile>, k: string) {
    k in profiles && Kept(k, profiles[k])
  }

  function KeyOf(row: Row): (string, Metric)
    requires row.metric.Known?
  {
    (row.source, row.metric.metric)
  }

  predicate Keyed(rows: seq<Row>) {
    && (forall i | 0 <= i < |rows| :: rows[i].metric.Known?)
    && (forall i, j | 0 <= i < j < |rows| :: KeyOf(rows[i]) != KeyOf(rows[j]))
  }

  /** Missing times become the store's clock. */
  function Stamped(row: Row, clock: int): Row {
    row.(lastUpdated := if row.lastUpdated == 0 then clock else row.lastUpdated,
         createdAt := if row.createdAt == 0 then clock else row.createdAt)
  }

  /** What the store keeps for a row: a row that was there keeps its creation time. */
  function Stored(table: Table, row: Row, clock: int): Row
    requires row.metric.Known?
  {
    if KeyOf(row) in table then Stamped(row, clock).(createdAt := table[KeyOf(row)].createdAt) else Stamped(row, clock)
  }

  function Upserted(table: Table, rows: seq<Row>, clock: int): Table
    requires forall i | 0 <= i < |rows| :: rows[i].metric.Known?
  {
    if rows == [] then table
    else
      var (before, row) := (Upserted(table, rows[..|rows| - 1], clock), rows[|rows| - 1]);
      before[KeyOf(row) := Stored(before, row, clock)]
  }

  method UpsertRow(table: Table, row: Row, clock: int) returns (written: Table)
    requires row.metric.Known?
    ensures written == table[KeyOf(row) := Stored(table, row, clock)]
  {
    var r := row;
    if r.lastUpdated == 0 { r := r.(lastUpdated := clock); }
    if r.createdAt == 0 { r := r.(createdAt := clock); }
    if KeyOf(row) in table { r := r.(createdAt := table[KeyOf(row)].createdAt); }
    written := table[KeyOf(row) := r];
  }

  method UpsertRows(table: Table, rows: seq<Row>, clock: int) returns (written: Table)
    requires Keyed(rows)
    ensures written == Upserted(table, rows, clock)
  {
    written := table;
    var i := 0;
    while i < |rows|
      invariant 0 <= i <= |rows|
      invariant written == Upserted(table, rows[..i], clock)
    {
      written := UpsertRow(written, rows[i], clock);
      assert rows[..i + 1][..i] == rows[..i];
      i := i + 1;
    }
    assert rows[..i] == rows;
  }

  /** Rows with distinct keys are all stored afterwards, each against what the table held, and the others
      are as they were. */
  lemma {:induction false} UpsertedAt(table: Table, rows: seq<Row>, clock: int, x: (string, Metric))
    requires Keyed(rows)
    ensures var written := Upserted(table, rows, clock);
      && (forall i | 0 <= i < |rows| && KeyOf(rows[i]) == x ::
            x in written && written[x] == Stored(table, rows[i], clock))
      && ((forall i | 0 <= i < |rows| :: KeyOf(rows[i]) != x) ==>
            (x in written <==> x in table) && (x in table ==> written[x] == table[x]))
  {
    if rows != [] {
      UpsertedAt(table, rows[..|rows| - 1], clock, x);
      UpsertedAt(table, rows[..|rows| - 1], clock, KeyOf(rows[|rows| - 1]));
    }
  }

  /** The rows of the profiles stored over what the table held. */
  ghost predicate Writes(table: Table, written: Table, out: map<string, Profile>, clock: int, windowSeconds: int) {
    forall k, m :: WritesAt(table, written, out, clock, windowSeconds, k, m)
  }

  ghost predicate WritesAt(table: Table, written: Table, out: map<string, Profile>, clock: int, windowSeconds: int,
      k: string, m: Metric) {
    && ((k, m) in written <==> (k, m) in table || Covers(out, k))
    && ((k, m) in written ==>
          written[(k, m)] == if Covers(out, k) then Stored(table, RowOf(k, out[k], m, windowSeconds), clock)
            else table[(k, m)])
  }

  lemma WritesMore(table: Table, t1: Table, t2: Table, done: map<string, Profile>, k: string, p: Profile, clock: int,
      windowSeconds: int)
    requires k !in done && Writes(table, t1, done, clock, windowSeconds)
      && Writes(t1, t2, map[k := p], clock, windowSeconds)
    ensures Writes(table, t2, done[k := p], clock, windowSeconds)
  {
    var all := done[k := p];
    forall j, m ensures WritesAt(table, t2, all, clock, windowSeconds, j, m) {
      assert WritesAt(table, t1, done, clock, windowSeconds, j, m);
      assert WritesAt(t1, t2, map[k := p], clock, windowSeconds, j, m);
    }
  }

  lemma SnapshotWrites(table: Table, k: string, p: Profile, clock: int, windowSeconds: int)
    requires Keyed(Rows(Snapshot(k, p), windowSeconds))
    ensures Writes(table, Upserted(table, Rows(Snapshot(k, p), windowSeconds), clock), map[k := p], clock,
      windowSeconds)
  {
    var rows := Rows(Snapshot(k, p), windowSeconds);
    forall j, m ensures WritesAt(table, Upserted(table, rows, clock), map[k := p], clock, windowSeconds, j, m) {
      UpsertedAt(table, rows, clock, (j, m));
      if Covers(map[k := p], j) {
        var i := match m case Pps => 0 case Bps => 1 case Syn => 2 case Scan => 3;
        assert METRICS[i] == m && rows[i] == RowOf(k, p, m, windowSeconds) && KeyOf(rows[i]) == (j, m);
      } else {
        assert forall i | 0 <= i < |rows| :: KeyOf(rows[i]).0 == k;
      }
    }
  }

  lemma RowsAreKeyed(snap: Snapshot, windowSeconds: int)
    ensures Keyed(Rows(snap, windowSeconds))
  {
    var rows := Rows(snap, windowSeconds);
    forall i, j | 0 <= i < j < |rows| ensures KeyOf(rows[i]) != KeyOf(rows[j]) { assert METRICS[i] != METRICS[j]; }
  }

  /** A flush writes the rows of every handed-out profile over what the table held, in any order. */
  method FlushRows(table: Table, out: map<string, Profile>, clock: int, windowSeconds: int) returns (written: Table)
    ensures Writes(table, written, out, clock, windowSeconds)
  {
    written := table;
    var rest, done := out.Keys, map[];
    while rest != {}
      invariant rest <= out.Keys && done == map k | k in out && k !in rest :: out[k]
      invariant Writes(table, written, done, clock, windowSeconds)
      decreases |rest|
    {
      var k :| k in rest;
      var rows := WriteRows(Snapshot(k, out[k]), windowSeconds);
      RowsAreKeyed(Snapshot(k, out[k]), windowSeconds);
      ghost var before := written;
      written := UpsertRows(written, rows, clock);
      SnapshotWrites(before, k, out[k], clock, windowSeconds);
      WritesMore(table, before, written, done, k, out[k], clock, windowSeconds);
      rest, done := rest - {k}, done[k := out[k]];
    }
    assert done == out;
  }

  // ---------------------------------------------------------------- the table over a run

  /** A snapshot the table gives back. */
  ghost predicate Loaded(table: Table, snap: Snapshot, windowSeconds: int) {
    Kept(snap.source, snap.profile)
    && forall m ::
         (snap.source, m) in table && table[(snap.source, m)] == RowOf(snap.source, snap.profile, m, windowSeconds)
  }

  /** A flush writes what is handed out; a restore takes snapshots the table holds; nothing else touches it. */
  ghost predicate TableStep(table: Table, next: Table, s: State, op: Op, clock: int, windowSeconds: int) {
    if op.Flush? then Writes(table, next, Flushed(s).1, clock, windowSeconds)
    else next == table && (op.Restore? ==> forall i | 0 <= i < |op.snaps| :: Loaded(table, op.snaps[i], windowSeconds))
  }

  /** The tables a run passes through, from an empty one. Evicting everything and restoring is a restart. */
  ghost predicate TableRun(tables: seq<Table>, ops: seq<Op>, cfg: Config, clock: int, windowSeconds: int) {
    && |tables| == |ops| + 1 && tables[0] == map[]
    && forall i | 0 <= i < |ops| :: TableStep(tables[i], tables[i + 1], After(ops[..i], cfg).s, ops[i], clock,
      windowSeconds)
  }

  ghost predicate AllKept(profiles: map<string, Profile>) {
    forall k | k in profiles :: Kept(k, profiles[k])
  }

  /** The first-seen time first flushed for each source. */
  function Births(ops: seq<Op>, cfg: Config): map<string, int> {
    if ops == [] then map[]
    else
      var (births, op) := (Births(ops[..|ops| - 1], cfg), ops[|ops| - 1]);
      if op.Flush? then WithBorn(births, Flushed(After(ops[..|ops| - 1], cfg).s).1) else births
  }

  function WithBorn(births: map<string, int>, out: map<string, Profile>): map<string, int> {
    births + map k | k in out && k !in births :: out[k].firstSeen
  }

  /** The recorded profiles, as old as their first row. */
  function Reborn(record: map<string, Profile>, births: map<string, int>): map<string, Profile> {
    map k | k in record && k in births :: record[k].(firstSeen := births[k])
  }

  /** The table holds the rows of the recorded profiles with those times, and no others. */
  ghost predicate Holds(table: Table, record: map<string, Profile>, births: map<string, int>, windowSeconds: int) {
    record.Keys == births.Keys && forall k, m :: HoldsAt(table, record, births, windowSeconds, k, m)
  }

  ghost predicate HoldsAt(table: Table, record: map<string, Profile>, births: map<string, int>, windowSeconds: int,
      k: string, m: Metric)
    requires record.Keys == births.Keys
  {
    && ((k, m) in table <==> k in record)
    && (k in record ==>
          (k, m) in table && table[(k, m)] == RowOf(k, record[k].(firstSeen := births[k]), m, windowSeconds))
  }

  lemma FlushHolds(t1: Table, t2: Table, record: map<string, Profile>, births: map<string, int>,
      out: map<string, Profile>, clock: int, windowSeconds: int)
    requires Holds(t1, record, births, windowSeconds) && Writes(t1, t2, out, clock, windowSeconds) && AllKept(out)
      && AllShaped(out)
    ensures Holds(t2, record + out, WithBorn(births, out), windowSeconds)
  {
    var (all, born) := (record + out, WithBorn(births, out));
    assert all.Keys == born.Keys;
    forall k, m ensures HoldsAt(t2, all, born, windowSeconds, k, m) {
      assert HoldsAt(t1, record, births, windowSeconds, k, m);
      assert WritesAt(t1, t2, out, clock, windowSeconds, k, m);
    }
  }

  lemma LoadHolds(table: Table, record: map<string, Profile>, births: map<string, int>, snap: Snapshot,
      windowSeconds: int)
    requires Holds(table, record, births, windowSeconds) && Loaded(table, snap, windowSeconds)
    ensures Holds(table, record[snap.source := snap.profile], births, windowSeconds)
  {
    var all := record[snap.source := snap.profile];
    assert HoldsAt(table, record, births, windowSeconds, snap.source, Pps);
    assert all.Keys == record.Keys;
    forall k, m ensures HoldsAt(table, all, births, windowSeconds, k, m) {
      assert HoldsAt(table, record, births, windowSeconds, k, m);
    }
  }

  lemma {:induction false} RestoreHolds(table: Table, w: World, births: map<string, int>, snaps: seq<Snapshot>,
      cfg: Config, windowSeconds: int)
    requires Holds(table, w.record, births, windowSeconds) && forall i | 0 <= i < |snaps| ::
      Loaded(table, snaps[i], windowSeconds)
    ensures Holds(table, RestoreAll(w, snaps, cfg).record, births, windowSeconds)
    decreases |snaps|
  {
    if snaps != [] && !NoRoom(w.s, snaps[0], cfg) {
      LoadHolds(table, w.record, births, snaps[0], windowSeconds);
      RestoreHolds(table, RestoreOne(w, snaps[0]), births, snaps[1..], cfg, windowSeconds);
    }
  }

  /** Rates are measurements, clocks are past the zero time, and sources have names. */
  ghost predicate Usual(ops: seq<Op>) {
    forall i | 0 <= i < |ops| :: ShapedOp(ops[i]) && (ops[i].Learned? ==> ops[i].o.source != "")
  }

  /** The table always holds exactly the rows of the latest profile flushed or restored for each source, created
      when that source was first flushed. */
  lemma {:induction false} TableHoldsRecord(tables: seq<Table>, ops: seq<Op>, cfg: Config, clock: int,
      windowSeconds: int)
    requires Usable(cfg) && Usual(ops) && TableRun(tables, ops, cfg, clock, windowSeconds)
    ensures Holds(tables[|ops|], After(ops, cfg).record, Births(ops, cfg), windowSeconds)
  {
    if ops != [] {
      var n := |ops| - 1;
      var (before, op, w) := (ops[..n], ops[n], After(ops[..n], cfg));
      assert forall i | 0 <= i < n :: before[..i] == ops[..i];
      TableHoldsRecord(tables[..n + 1], before, cfg, clock, windowSeconds);
      AlwaysShaped(before, cfg);
      AlwaysNamed(before, cfg);
      assert TableStep(tables[n], tables[n + 1], w.s, op, clock, windowSeconds);
      match op
      case Flush => FlushHolds(tables[n], tables[n + 1], w.record, Births(before, cfg), Flushed(w.s).1, clock,
        windowSeconds);
      case Restore(snaps) => RestoreHolds(tables[n], w, Births(before, cfg), snaps, cfg, windowSeconds);
      case Learned(_) =>
      case TriggerRead(_, _, _) =>
      case Evict(_) =>
    }
  }

  /** A listing of the table, in any order. */
  ghost predicate ListsTable(rows: seq<Row>, table: Table) {
    && (forall i | 0 <= i < |rows| ::
          rows[i].metric.Known? && KeyOf(rows[i]) in table && table[KeyOf(rows[i])] == rows[i])
    && (forall x | x in table :: table[x] in rows)
  }

  lemma ListingEncodes(rows: seq<Row>, table: Table, record: map<string, Profile>, births: map<string, int>,
      windowSeconds: int)
    requires Holds(table, record, births, windowSeconds) && AllKept(record) && ListsTable(rows, table)
    ensures Encodes(rows, Reborn(record, births), windowSeconds)
  {
    var profiles := Reborn(record, births);
    forall k, m | k in profiles ensures RowOf(k, profiles[k], m, windowSeconds) in rows {
      assert HoldsAt(table, record, births, windowSeconds, k, m);
      assert table[(k, m)] in rows;
    }
    forall i | 0 <= i < |rows| ensures IsRowOf(rows[i], profiles, windowSeconds) {
      assert HoldsAt(table, record, births, windowSeconds, KeyOf(rows[i]).0, KeyOf(rows[i]).1);
    }
  }

  // ---------------------------------------------------------------- restart

  /** What a listing of the table decodes to: every recorded profile, as old as its source's first row. */
  lemma TableDecodes(ops: seq<Op>, cfg: Config, tables: seq<Table>, rows: seq<Row>, clock: int, windowSeconds: int)
    requires Usable(cfg) && Usual(ops) && TableRun(tables, ops, cfg, clock, windowSeconds)
      && ListsTable(rows, tables[|ops|])
    ensures var record := After(ops, cfg).record;
      Decoded(rows, windowSeconds) == Reborn(record, Births(ops, cfg)) && record.Keys == Births(ops, cfg).Keys
  {
    var (record, births) := (After(ops, cfg).record, Births(ops, cfg));
    TableHoldsRecord(tables, ops, cfg, clock, windowSeconds);
    AlwaysShaped(ops, cfg);
    AlwaysNamed(ops, cfg);
    ListingEncodes(rows, tables[|ops|], record, births, windowSeconds);
    var profiles := Reborn(record, births);
    forall k | k in profiles ensures Storable(profiles[k]) { ShapedIsStorable(record[k]); }
    RoundTripIff(rows, profiles, windowSeconds);
  }

  /** Persistence end to end: whatever the cache went through, flush once more, read the table back in any
      order and restore it into an empty cache. Every source that was live then is listed once. */
  lemma LiveIsListed(ops: seq<Op>, cfg: Config, tables: seq<Table>, rows: seq<Row>, snaps: seq<Snapshot>, clock: int,
      windowSeconds: int, source: string)
    requires Usable(cfg) && Usual(ops) && source in After(ops, cfg).s.m
    requires TableRun(tables, ops + [Flush], cfg, clock, windowSeconds) && ListsTable(rows, tables[|ops| + 1])
    requires ListsMap(snaps, Decoded(rows, windowSeconds))
    ensures exists i :: 0 <= i < |snaps| && snaps[i].source == source
  {
    FlushedRun(ops);
    TableDecodes(ops + [Flush], cfg, tables, rows, clock, windowSeconds);
    ProperRun(ops);
    IncrementalEqualsFull(ops, cfg, source);
    ListedOnce(snaps, Decoded(rows, windowSeconds), source);
  }

  lemma ListedOnce(snaps: seq<Snapshot>, m: map<string, Profile>, source: string)
    requires ListsMap(snaps, m) && source in m
    ensures exists i :: 0 <= i < |snaps| && snaps[i].source == source
  {
  }

  lemma FlushedRun(ops: seq<Op>)
    requires Usual(ops)
    ensures Usual(ops + [Flush])
  {
    var all := ops + [Flush];
    assert all[|ops|] == Flush && forall i | 0 <= i < |ops| :: all[i] == ops[i];
  }

  lemma ProperRun(ops: seq<Op>)
    requires Usual(ops)
    ensures forall i | 0 <= i < |ops| :: ProperOp(ops[i])
  {
  }

  /** It is restored exactly if it is among the first listed that the cache has room for, and then with the
      profile it had, except that it is as old as its first row: the whole profile comes back exactly if that
      is its current first-seen time. */
  lemma RestartRestores(ops: seq<Op>, cfg: Config, tables: seq<Table>, rows: seq<Row>, snaps: seq<Snapshot>,
      clock: int, windowSeconds: int, i: nat)
    requires Usable(cfg) && Usual(ops) && i < |snaps| && snaps[i].source in After(ops, cfg).s.m
    requires TableRun(tables, ops + [Flush], cfg, clock, windowSeconds) && ListsTable(rows, tables[|ops| + 1])
    requires ListsMap(snaps, Decoded(rows, windowSeconds))
    ensures
      var (source, m, births) := (snaps[i].source, Restored(EMPTY, snaps, cfg).m, Births(ops + [Flush], cfg));
      var live := After(ops, cfg).s.m[source];
      && source in births
      && (source in m <==> i < cfg.maxSources)
      && (source in m ==> m[source] == live.(firstSeen := births[source]))
      && (source in m ==> (m[source] == live <==> births[source] == live.firstSeen))
  {
    var (source, births) := (snaps[i].source, Births(ops + [Flush], cfg));
    FlushedRun(ops);
    ProperRun(ops);
    TableDecodes(ops + [Flush], cfg, tables, rows, clock, windowSeconds);
    IncrementalEqualsFull(ops, cfg, source);
    AlwaysNamed(ops + [Flush], cfg);
    RestoreTakesPrefix(EMPTY, snaps, cfg, i);
    BirthsArePast(ops + [Flush], cfg, source);
  }

  lemma {:induction false} BirthsArePast(ops: seq<Op>, cfg: Config, source: string)
    requires Usable(cfg) && Usual(ops)
    ensures source in Births(ops, cfg) ==> Births(ops, cfg)[source] > 0
  {
    if ops != [] {
      BirthsArePast(ops[..|ops| - 1], cfg, source);
      AlwaysShaped(ops[..|ops| - 1], cfg);
    }
  }

  // ---------------------------------------------------------------- a source that was forgotten

  function Sighting(source: string, now: int): Op {
    Op.Learned(Observation(source, Quad(10.0, 10.0, 10.0, 10.0), false, now, 0.0))
  }

  lemma OneMore(ops: seq<Op>, op: Op, cfg: Config)
    ensures After(ops + [op], cfg) == Next(After(ops, cfg), op, cfg)
    ensures Births(ops + [op], cfg) == if op.Flush? then WithBorn(Births(ops, cfg), Flushed(After(ops, cfg).s).1)
      else Births(ops, cfg)
  {
    assert (ops + [op])[..|ops|] == ops;
  }

  lemma SightingLearns(w: World, source: string, now: int, cfg: Config)
    requires Usable(cfg) && cfg.minUpdatePps <= 10.0 && w.s.m == map[]
    ensures var s := Next(w, Sighting(source, now), cfg).s;
      && s.m.Keys == {source} && s.m[source].firstSeen == now && s.m[source].lastSeen == now && source in s.dirty
  {
  }

  /** Learn a source at 1 and flush. */
  function Learnt(source: string): seq<Op> {
    [] + [Sighting(source, 1)] + [Flush]
  }

  /** Then evict it and learn it again at 100. */
  function Relearned(source: string): seq<Op> {
    Learnt(source) + [Evict(2)] + [Sighting(source, 100)]
  }

  lemma LearntIsBorn(source: string, cfg: Config)
    requires Usable(cfg) && cfg.minUpdatePps <= 10.0
    ensures var w := After(Learnt(source), cfg);
      && w.s.m.Keys == {source} && w.s.m[source].lastSeen == 1
      && source in Births(Learnt(source), cfg) && Births(Learnt(source), cfg)[source] == 1
  {
    OneMore([], Sighting(source, 1), cfg);
    SightingLearns(After([], cfg), source, 1, cfg);
    OneMore([] + [Sighting(source, 1)], Flush, cfg);
  }

  lemma ForgottenIsBorn(source: string, cfg: Config)
    requires Usable(cfg) && cfg.minUpdatePps <= 10.0
    ensures var ops := Learnt(source) + [Evict(2)];
      After(ops, cfg).s.m == map[] && source in Births(ops, cfg) && Births(ops, cfg)[source] == 1
  {
    LearntIsBorn(source, cfg);
    OneMore(Learnt(source), Evict(2), cfg);
    EvictsAll(After(Learnt(source), cfg), 2, cfg);
  }

  lemma EvictsAll(w: World, cutoff: int, cfg: Config)
    requires forall k | k in w.s.m :: w.s.m[k].lastSeen < cutoff
    ensures Next(w, Evict(cutoff), cfg).s.m == map[]
  {
  }

  /** It is then live since 100, but its rows were created at 1, which is what a restart gives back. */
  lemma RelearnedIsOlder(source: string, cfg: Config)
    requires Usable(cfg) && cfg.minUpdatePps <= 10.0
    ensures var ops := Relearned(source);
      && source in After(ops, cfg).s.m && After(ops, cfg).s.m[source].firstSeen == 100
      && source in Births(ops + [Flush], cfg) && Births(ops + [Flush], cfg)[source] == 1
  {
    var evicted := Learnt(source) + [Evict(2)];
    ForgottenIsBorn(source, cfg);
    OneMore(evicted, Sighting(source, 100), cfg);
    SightingLearns(After(evicted, cfg), source, 100, cfg);
    OneMore(Relearned(source), Flush, cfg);
  }
}
