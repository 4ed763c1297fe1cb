/** How source profiles travel through the baseline table: four rows a source, decoded in any order. */
module BaselineRows {
  import opened SourceBaseline

  datatype Field = Ewma | Baseline | Median | Peak | GlobalTrigger | EffectiveTrigger | Confidence | Windows

  datatype MetricId = Known(metric: Metric) | Unknown(name: string)

  datatype RowState = Candidate | Learned | Approved | OtherState(name: string)

  /** The numeric entries of a row's state; absent or non-numeric ones are missing. */
  datatype Row = Row(
    scopeType: string, scopeId: string, sourceClass: string, windowSeconds: int, source: string, metric: MetricId,
    state: RowState, values: map<Field, real>, observations: int, lastUpdated: int, createdAt: int)

  const SCOPE_TYPE := "source"
  const SCOPE_ID := "klshield-source"
  const SOURCE_CLASS := "xdp"

  const METRICS: seq<Metric> := [Pps, Bps, Syn, Scan]

  // ---------------------------------------------------------------- encoding

  function Values(p: Profile, m: Metric): map<Field, real> {
    map[Ewma := p.ewma.Get(m), Baseline := p.ewma.Get(m), Peak := p.peak.Get(m), GlobalTrigger := p.global.Get(m),
        EffectiveTrigger := p.effective.Get(m), Confidence := p.confidence, Windows := p.windows as real]
  }

  function RowOf(source: string, p: Profile, m: Metric, windowSeconds: int): Row {
    Row(SCOPE_TYPE, SCOPE_ID, SOURCE_CLASS, windowSeconds, source, Known(m), if p.promoted then Learned else Candidate,
        Values(p, m), p.obsCount, p.lastSeen, p.firstSeen)
  }

  /** One row a metric; nothing for an unnamed source or one never observed. */
  function Rows(snap: Snapshot, windowSeconds: int): seq<Row> {
    if snap.source == "" || snap.profile.obsCount == 0 then []
    else seq(|METRICS|, i requires 0 <= i < |METRICS| => RowOf(snap.source, snap.profile, METRICS[i], windowSeconds))
  }

  method WriteRows(snap: Snapshot, windowSeconds: int) returns (rows: seq<Row>)
    ensures rows == Rows(snap, windowSeconds)
  {
    rows := [];
    var p := snap.profile;
    if snap.source == "" || p.obsCount == 0 { return; }
    var state := if p.promoted then Learned else Candidate;
    var i := 0;
    while i < |METRICS|
      invariant 0 <= i <= |METRICS| && |rows| == i
      invariant forall j | 0 <= j < i :: rows[j] == RowOf(snap.source, p, METRICS[j], windowSeconds)
    {
      var m := METRICS[i];
      rows := rows + [Row(SCOPE_TYPE, SCOPE_ID, SOURCE_CLASS, windowSeconds, snap.source, Known(m), state,
                          Values(p, m), p.obsCount, p.lastSeen, p.firstSeen)];
      i := i + 1;
    }
  }

  // ---------------------------------------------------------------- decoding

  predicate Relevant(row: Row, windowSeconds: int) {
    && row.scopeType == SCOPE_TYPE && row.scopeId == SCOPE_ID && row.sourceClass == SOURCE_CLASS
    && row.windowSeconds == windowSeconds && row.source != ""
  }

  /** The first of the given entries that is present. */
  function Numeric(values: map<Field, real>, fields: seq<Field>): real {
    if fields == [] then 0.0 else if fields[0] in values then values[fields[0]] else Numeric(values, fields[1..])
  }

  function WithMetric(p: Profile, m: Metric, values: map<Field, real>): Profile {
    p.(ewma := p.ewma.With(m, Numeric(values, [Ewma, Baseline, Median])),
       peak := p.peak.With(m, Numeric(values, [Peak])),
       global := p.global.With(m, Numeric(values, [GlobalTrigger])),
       effective := p.effective.With(m, Numeric(values, [EffectiveTrigger])))
  }

  /** Counters, times and flags of a row: the largest count, the earliest creation, the latest update. */
  function WithCounters(p: Profile, row: Row): Profile {
    var (windows, confidence) := (Numeric(row.values, [Windows]), Numeric(row.values, [Confidence]));
    p.(obsCount := if row.observations > p.obsCount then row.observations else p.obsCount,
       windows := if windows > p.windows as real then windows.Floor else p.windows,
       confidence := if confidence > p.confidence then confidence else p.confidence,
       promoted := p.promoted || row.state == Learned || row.state == Approved,
       firstSeen := if row.createdAt != 0 && (p.firstSeen == 0 || row.createdAt < p.firstSeen) then row.createdAt
         else p.firstSeen,
       lastSeen := if row.lastUpdated > p.lastSeen then row.lastUpdated else p.lastSeen)
  }

  function WithRow(p: Profile, row: Row): Profile {
    if row.metric.Unknown? then p else WithCounters(WithMetric(p, row.metric.metric, row.values), row)
  }

  function Collected(rows: seq<Row>, windowSeconds: int): map<string, Profile> {
    if rows == [] then map[]
    else
      var (before, row) := (Collected(rows[..|rows| - 1], windowSeconds), rows[|rows| - 1]);
      if Relevant(row, windowSeconds) then before[row.source :=
        WithRow(if row.source in before then before[row.source] else BLANK, row)]
      else before
  }

  /** Old rows may lack the window count, or the peaks of the SYN and scan rates. */
  function Repaired(p: Profile): Profile {
    var q := if p.windows == 0 then p.(windows := p.obsCount) else p;
    if !q.promoted then q
    else
      var r := if q.peak.syn == 0.0 && q.ewma.syn > 0.0 then q.(peak := q.peak.(syn := q.ewma.syn * 1.5)) else q;
      if r.peak.scan == 0.0 && r.ewma.scan > 0.0 then r.(peak := r.peak.(scan := r.ewma.scan * 1.5)) else r
  }

  function Decoded(rows: seq<Row>, windowSeconds: int): map<string, Profile> {
    var all := Collected(rows, windowSeconds);
    map k | k in all && all[k].obsCount != 0 :: Repaired(all[k])
  }

  /** The list holds the entries of the map, each once. */
  ghost predicate ListsMap(out: seq<Snapshot>, m: map<string, Profile>) {
    && (forall i | 0 <= i < |out| :: out[i].source in m && m[out[i].source] == out[i].profile)
    && (forall i, j | 0 <= i < j < |out| :: out[i].source != out[j].source)
    && (forall k | k in m :: exists i :: 0 <= i < |out| && out[i].source == k)
  }

  method ReadRows(rows: seq<Row>, windowSeconds: int) returns (out: seq<Snapshot>)
    ensures ListsMap(out, Decoded(rows, windowSeconds))
  {
    var bySource := CollectRows(rows, windowSeconds);
    out := [];
    var rest := bySource.Keys;
    while rest != {}
      invariant rest <= bySource.Keys
      invariant forall i | 0 <= i < |out| ::
        out[i].source in bySource && out[i].source !in rest && bySource[out[i].source].obsCount != 0
        && out[i].profile == Repaired(bySource[out[i].source])
      invariant forall i, j | 0 <= i < j < |out| :: out[i].source != out[j].source
      invariant forall k | k in bySource && k !in rest && bySource[k].obsCount != 0 ::
        exists i :: 0 <= i < |out| && out[i].source == k
      decreases |rest|
    {
      var k :| k in rest;
      ghost var before := out;
      if bySource[k].obsCount != 0 {
        out := out + [Snapshot(k, Repaired(bySource[k]))];
        assert out[|out| - 1].source == k;
      }
      forall x | x in bySource && x !in rest - {k} && bySource[x].obsCount != 0
        ensures exists i :: 0 <= i < |out| && out[i].source == x {
        if x != k {
          var i :| 0 <= i < |before| && before[i].source == x;
          assert out[i].source == x;
        }
      }
      rest := rest - {k};
    }
  }

  /** Fill one profile a source, row by row. */
  method CollectRows(rows: seq<Row>, windowSeconds: int) returns (bySource: map<string, Profile>)
    ensures bySource == Collected(rows, windowSeconds)
  {
    bySource := map[];
    var i := 0;
    while i < |rows|
      invariant 0 <= i <= |rows|
      invariant bySource == Collected(rows[..i], windowSeconds)
    {
      var row := rows[i];
      assert rows[..i + 1][..i] == rows[..i];
      i := i + 1;
      if !Relevant(row, windowSeconds) { continue; }
      var p := if row.source in bySource then bySource[row.source] else BLANK;
      if row.metric.Known? {
        p := WithMetric(p, row.metric.metric, row.values);
        p := WithCounters(p, row);
      }
      bySource := bySource[row.source := p];
    }
    assert rows[..i] == rows;
  }

  // ---------------------------------------------------------------- round trip

  /** What the table can hold of a profile: no negative confidence, no time before the zero time. */
  function Clamped(p: Profile): Profile {
    p.(confidence := if p.confidence < 0.0 then 0.0 else p.confidence,
       lastSeen := if p.lastSeen < 0 then 0 else p.lastSeen)
  }

  ghost predicate QuadSeen(q: Quad, full: Quad, seen: set<Metric>) {
    forall m :: q.Get(m) == if m in seen then full.Get(m) else 0.0
  }

  /** A profile of which the rows of some metrics have been read. */
  ghost predicate Partial(p: Profile, full: Profile, seen: set<Metric>) {
    && QuadSeen(p.ewma, full.ewma, seen) && QuadSeen(p.peak, full.peak, seen)
    && QuadSeen(p.global, full.global, seen) && QuadSeen(p.effective, full.effective, seen)
    && CountersSeen(p, if seen == {} then BLANK else Clamped(full))
  }

  predicate CountersSeen(p: Profile, full: Profile) {
    && p.obsCount == full.obsCount && p.windows == full.windows && p.firstSeen == full.firstSeen
    && p.lastSeen == full.lastSeen && p.promoted == full.promoted && p.confidence == full.confidence
  }

  lemma CountersRead(p: Profile, full: Profile, row: Row)
    requires CountersSeen(p, BLANK) || CountersSeen(p, Clamped(full))
    requires row.observations == full.obsCount && row.lastUpdated == full.lastSeen && row.createdAt == full.firstSeen
    requires row.state == (if full.promoted then Learned else Candidate)
    requires Numeric(row.values, [Windows]) == full.windows as real
      && Numeric(row.values, [Confidence]) == full.confidence
    ensures CountersSeen(WithCounters(p, row), Clamped(full))
  {
  }

  lemma ValuesRead(p: Profile, m: Metric)
    ensures var v := Values(p, m);
      && Numeric(v, [Ewma, Baseline, Median]) == p.ewma.Get(m) && Numeric(v, [Peak]) == p.peak.Get(m)
      && Numeric(v, [GlobalTrigger]) == p.global.Get(m) && Numeric(v, [EffectiveTrigger]) == p.effective.Get(m)
      && Numeric(v, [Windows]) == p.windows as real && Numeric(v, [Confidence]) == p.confidence
  {
  }

  lemma RowRead(p: Profile, full: Profile, seen: set<Metric>, source: string, m: Metric, windowSeconds: int)
    requires Partial(p, full, seen)
    ensures Partial(WithRow(p, RowOf(source, full, m, windowSeconds)), full, seen + {m})
  {
    var row := RowOf(source, full, m, windowSeconds);
    ValuesRead(full, m);
    CountersRead(WithMetric(p, m, row.values), full, row);
  }

  lemma AllRead(p: Profile, full: Profile)
    requires Partial(p, full, {Pps, Bps, Syn, Scan})
    ensures p == Clamped(full)
  {
    QuadsEqual(p.ewma, full.ewma);
    QuadsEqual(p.peak, full.peak);
    QuadsEqual(p.global, full.global);
    QuadsEqual(p.effective, full.effective);
  }

  lemma QuadsEqual(q: Quad, r: Quad)
    requires QuadSeen(q, r, {Pps, Bps, Syn, Scan})
    ensures q == r
  {
    assert q.Get(Pps) == r.Get(Pps) && q.Get(Bps) == r.Get(Bps) && q.Get(Syn) == r.Get(Syn)
      && q.Get(Scan) == r.Get(Scan);
  }

  /** The rows are those of the profiles, in any order, possibly repeated, among rows of other owners. */
  ghost predicate Encodes(rows: seq<Row>, profiles: map<string, Profile>, windowSeconds: int) {
    && (forall i | 0 <= i < |rows| && Relevant(rows[i], windowSeconds) :: IsRowOf(rows[i], profiles, windowSeconds))
    && (forall k, m | k in profiles :: RowOf(k, profiles[k], m, windowSeconds) in rows)
  }

  ghost predicate IsRowOf(row: Row, profiles: map<string, Profile>, windowSeconds: int) {
    && row.source in profiles && row.metric.Known?
    && row == RowOf(row.source, profiles[row.source], row.metric.metric, windowSeconds)
  }

  ghost function Seen(rows: seq<Row>, k: string, p: Profile, windowSeconds: int): set<Metric> {
    set m: Metric | m in {Pps, Bps, Syn, Scan} && RowOf(k, p, m, windowSeconds) in rows
  }

  /** Reading any prefix leaves each source with exactly the metrics read so far. */
  lemma {:induction false} CollectedPartial(rows: seq<Row>, profiles: map<string, Profile>, windowSeconds: int,
      k: string)
    requires k in profiles && k != ""
    requires forall i | 0 <= i < |rows| && Relevant(rows[i], windowSeconds) :: IsRowOf(rows[i], profiles, windowSeconds)
    ensures var (all, seen) := (Collected(rows, windowSeconds), Seen(rows, k, profiles[k], windowSeconds));
      && (k in all <==> seen != {})
      && (k in all ==> Partial(all[k], profiles[k], seen))
  {
    if rows != [] {
      var (before, row) := (rows[..|rows| - 1], rows[|rows| - 1]);
      CollectedPartial(before, profiles, windowSeconds, k);
      var all := Collected(before, windowSeconds);
      var (seen, now) := (Seen(before, k, profiles[k], windowSeconds), Seen(rows, k, profiles[k], windowSeconds));
      assert rows == before + [row];
      if Relevant(row, windowSeconds) && row.source == k {
        var m := row.metric.metric;
        assert now == seen + {m};
        RowRead(if k in all then all[k] else BLANK, profiles[k], seen, k, m, windowSeconds);
      } else {
        assert now == seen;
      }
    }
  }

  lemma {:induction false} CollectedSources(rows: seq<Row>, windowSeconds: int, k: string)
    ensures k in Collected(rows, windowSeconds) ==>
      exists i :: 0 <= i < |rows| && Relevant(rows[i], windowSeconds) && rows[i].source == k
  {
    if rows != [] { CollectedSources(rows[..|rows| - 1], windowSeconds, k); }
  }

  /** Decoding the rows of any named, observed profiles gives each back, clamped and repaired, whatever the
      order of the rows. */
  lemma DecodeEncoded(rows: seq<Row>, profiles: map<string, Profile>, windowSeconds: int)
    requires Encodes(rows, profiles, windowSeconds) && forall k | k in profiles :: k != "" && profiles[k].obsCount > 0
    ensures Decoded(rows, windowSeconds) == map k | k in profiles :: Repaired(Clamped(profiles[k]))
  {
    var all := Collected(rows, windowSeconds);
    forall k | k in profiles ensures k in all && all[k] == Clamped(profiles[k]) {
      CollectedPartial(rows, profiles, windowSeconds, k);
      assert Seen(rows, k, profiles[k], windowSeconds) == {Pps, Bps, Syn, Scan};
      AllRead(all[k], profiles[k]);
    }
    forall k | k in all ensures k in profiles { CollectedSources(rows, windowSeconds, k); }
  }

  /** Profiles that need neither clamping nor repair. */
  predicate Storable(p: Profile) {
    && p.obsCount > 0 && p.windows > 0 && p.confidence >= 0.0 && p.lastSeen >= 0
    && (p.promoted ==> !(p.peak.syn == 0.0 && p.ewma.syn > 0.0) && !(p.peak.scan == 0.0 && p.ewma.scan > 0.0))
  }

  lemma StorableIff(p: Profile)
    requires p.obsCount > 0
    ensures Repaired(Clamped(p)) == p <==> Storable(p)
  {
  }

  /** The table gives back exactly the profiles written to it exactly when each of them is storable. */
  lemma RoundTripIff(rows: seq<Row>, profiles: map<string, Profile>, windowSeconds: int)
    requires Encodes(rows, profiles, windowSeconds) && forall k | k in profiles :: k != "" && profiles[k].obsCount > 0
    ensures Decoded(rows, windowSeconds) == profiles <==> forall k | k in profiles :: Storable(profiles[k])
  {
    DecodeEncoded(rows, profiles, windowSeconds);
    var d := Decoded(rows, windowSeconds);
    forall k | k in profiles ensures d[k] == profiles[k] <==> Storable(profiles[k]) { StorableIff(profiles[k]); }
  }

  lemma RowsEncode(snap: Snapshot, windowSeconds: int)
    requires snap.source != "" && snap.profile.obsCount > 0
    ensures Encodes(Rows(snap, windowSeconds), map[snap.source := snap.profile], windowSeconds)
  {
    var (rows, profiles) := (Rows(snap, windowSeconds), map[snap.source := snap.profile]);
    forall m ensures RowOf(snap.source, snap.profile, m, windowSeconds) in rows {
      var i := match m case Pps => 0 case Bps => 1 case Syn => 2 case Scan => 3;
      assert rows[i] == RowOf(snap.source, snap.profile, METRICS[i], windowSeconds) && METRICS[i] == m;
    }
  }

  /** One snapshot: written and read back, it is the same exactly when it is named and storable. */
  lemma SnapshotRoundTripIff(snap: Snapshot, windowSeconds: int)
    ensures Decoded(Rows(snap, windowSeconds), windowSeconds) == map[snap.source := snap.profile]
        <==> snap.source != "" && Storable(snap.profile)
  {
    var profiles := map[snap.source := snap.profile];
    if snap.source != "" && snap.profile.obsCount > 0 {
      RowsEncode(snap, windowSeconds);
      RoundTripIff(Rows(snap, windowSeconds), profiles, windowSeconds);
      assert snap.source in profiles;
    } else {
      assert Rows(snap, windowSeconds) == [];
      assert snap.source in profiles && snap.source !in Decoded([], windowSeconds);
    }
  }
}
