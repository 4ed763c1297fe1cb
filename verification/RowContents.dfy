/** What the rows of a profile contain, what any set of rows decodes to, and what the table keeps of a row, entry
    by entry. */
module RowContents {
  import opened SourceBaseline
  import opened BaselineRows
  import opened BaselineRestart
  import opened SourceHistory

  // ---------------------------------------------------------------- writing

  /** Every entry of the row of one metric. */
  predicate Writes(row: Row, source: string, p: Profile, m: Metric, windowSeconds: int) {
    && row.scopeType == "source" && row.scopeId == "klshield-source" && row.sourceClass == "xdp"
    && row.windowSeconds == windowSeconds && row.source == source && row.metric == Known(m)
    && row.state == (if p.promoted then RowState.Learned else Candidate)
    && row.observations == p.obsCount && row.lastUpdated == p.lastSeen && row.createdAt == p.firstSeen
    && row.values.Keys == {Ewma, Baseline, Peak, GlobalTrigger, EffectiveTrigger, Confidence, Windows}
    && row.values[Ewma] == row.values[Baseline] == Part(p.ewma, m) && row.values[Peak] == Part(p.peak, m)
    && row.values[GlobalTrigger] == Part(p.global, m) && row.values[EffectiveTrigger] == Part(p.effective, m)
    && row.values[Confidence] == p.confidence && row.values[Windows] == p.windows as real
  }

  lemma RowWrites(source: string, p: Profile, m: Metric, windowSeconds: int)
    ensures Writes(RowOf(source, p, m, windowSeconds), source, p, m, windowSeconds)
  {
    assert Values(p, m).Keys == {Ewma, Baseline, Peak, GlobalTrigger, EffectiveTrigger, Confidence, Windows};
  }

  /** A named, observed source has one row for each metric and no other; any other has none. */
  lemma RowsSay(snap: Snapshot, windowSeconds: int, m: Metric)
    ensures var rows := Rows(snap, windowSeconds);
      if snap.source == "" || snap.profile.obsCount == 0 then rows == []
      else
        && |rows| == 4
        && exists i :: 0 <= i < 4 && Writes(rows[i], snap.source, snap.profile, m, windowSeconds)
  {
    if snap.source != "" && snap.profile.obsCount != 0 {
      var i := match m case Pps => 0 case Bps => 1 case Syn => 2 case Scan => 3;
      RowWrites(snap.source, snap.profile, m, windowSeconds);
      assert METRICS[i] == m && Rows(snap, windowSeconds)[i] == RowOf(snap.source, snap.profile, m, windowSeconds);
    }
  }

  // ---------------------------------------------------------------- reading

  /** A row of the source that is read: of the source baselines, the window length, and a known metric. */
  predicate Reads(row: Row, windowSeconds: int, source: string) {
    && row.scopeType == "source" && row.scopeId == "klshield-source" && row.sourceClass == "xdp"
    && row.windowSeconds == windowSeconds && row.source == source && source != "" && row.metric.Known?
  }

  /** The source's rows, in order. */
  function Owned(rows: seq<Row>, windowSeconds: int, source: string): (os: seq<Row>)
    ensures forall i | 0 <= i < |os| :: Reads(os[i], windowSeconds, source)
  {
    if rows == [] then []
    else
      var (before, last) := (Owned(rows[..|rows| - 1], windowSeconds, source), rows[|rows| - 1]);
      if Reads(last, windowSeconds, source) then before + [last] else before
  }

  /** A numeric entry, 0 when it is missing. */
  function Entry(row: Row, f: Field): real {
    if f in row.values then row.values[f] else 0.0
  }

  /** The average: under its own name, else under the older ones. */
  function Average(row: Row): real {
    if Ewma in row.values then row.values[Ewma]
    else if Baseline in row.values then row.values[Baseline]
    else if Median in row.values then row.values[Median] else 0.0
  }

  /** The source's latest row of the metric, if any. */
  predicate Latest(os: seq<Row>, m: Metric, i: int) {
    0 <= i < |os| && os[i].metric == Known(m) && forall j | i < j < |os| :: os[j].metric != Known(m)
  }

  /** The profile filled from the source's rows, before repair. */
  function Filled(os: seq<Row>): Profile {
    if os == [] then BLANK else WithRow(Filled(os[..|os| - 1]), os[|os| - 1])
  }

  lemma {:induction false} CollectedIsFilled(rows: seq<Row>, windowSeconds: int, source: string)
    ensures var (all, os) := (Collected(rows, windowSeconds), Owned(rows, windowSeconds, source));
      if source in all then all[source] == Filled(os) else os == []
  {
    if rows != [] {
      var (before, row) := (rows[..|rows| - 1], rows[|rows| - 1]);
      CollectedIsFilled(before, windowSeconds, source);
      var os := Owned(before, windowSeconds, source);
      if Reads(row, windowSeconds, source) { assert (os + [row])[..|os|] == os; }
    }
  }

  lemma NumericIsEntry(row: Row, f: Field)
    ensures Numeric(row.values, [f]) == Entry(row, f)
  {
    assert [f][1..] == [];
  }

  lemma NumericIsAverage(row: Row)
    ensures Numeric(row.values, [Ewma, Baseline, Median]) == Average(row)
  {
    assert [Ewma, Baseline, Median][1..] == [Baseline, Median] && [Baseline, Median][1..] == [Median];
    NumericIsEntry(row, Median);
  }

  /** One row more. */
  lemma RowAdds(p: Profile, row: Row, m: Metric)
    requires row.metric.Known?
    ensures var q := WithRow(p, row);
      && q.obsCount == (if row.observations > p.obsCount then row.observations else p.obsCount)
      && q.windows == (if Entry(row, Windows) > p.windows as real then Entry(row, Windows).Floor else p.windows)
      && q.confidence == (if Entry(row, Confidence) > p.confidence then Entry(row, Confidence) else p.confidence)
      && (q.promoted <==> p.promoted || row.state == RowState.Learned || row.state == Approved)
      && q.firstSeen == (if row.createdAt != 0 && (p.firstSeen == 0 || row.createdAt < p.firstSeen) then row.createdAt
                         else p.firstSeen)
      && q.lastSeen == (if row.lastUpdated > p.lastSeen then row.lastUpdated else p.lastSeen)
      && (if row.metric == Known(m) then
            && Part(q.ewma, m) == Average(row) && Part(q.peak, m) == Entry(row, Peak)
            && Part(q.global, m) == Entry(row, GlobalTrigger) && Part(q.effective, m) == Entry(row, EffectiveTrigger)
          else
            && Part(q.ewma, m) == Part(p.ewma, m) && Part(q.peak, m) == Part(p.peak, m)
            && Part(q.global, m) == Part(p.global, m) && Part(q.effective, m) == Part(p.effective, m))
  {
    NumericIsAverage(row);
    NumericIsEntry(row, Peak);
    NumericIsEntry(row, GlobalTrigger);
    NumericIsEntry(row, EffectiveTrigger);
    NumericIsEntry(row, Windows);
    NumericIsEntry(row, Confidence);
  }

  /** The largest count, never below 0. */
  ghost predicate MostObserved(os: seq<Row>, n: int) {
    && n >= 0 && (forall i | 0 <= i < |os| :: os[i].observations <= n)
    && (n == 0 || exists i :: 0 <= i < |os| && os[i].observations == n)
  }

  /** The largest whole number of windows, never below 0. */
  ghost predicate MostWindows(os: seq<Row>, n: int) {
    && n >= 0 && (forall i | 0 <= i < |os| :: Entry(os[i], Windows) < n as real + 1.0)
    && (n == 0 || exists i :: 0 <= i < |os| && n as real <= Entry(os[i], Windows))
  }

  /** The greatest confidence, never below 0. */
  ghost predicate MostConfident(os: seq<Row>, c: real) {
    && c >= 0.0 && (forall i | 0 <= i < |os| :: Entry(os[i], Confidence) <= c)
    && (c == 0.0 || exists i :: 0 <= i < |os| && Entry(os[i], Confidence) == c)
  }

  /** The earliest creation, 0 only when none is known. */
  ghost predicate Earliest(os: seq<Row>, t: int) {
    && (forall i | 0 <= i < |os| :: os[i].createdAt != 0 ==> t != 0 && t <= os[i].createdAt)
    && (t == 0 || exists i :: 0 <= i < |os| && os[i].createdAt == t)
  }

  /** The latest update, never before 0. */
  ghost predicate LastUpdate(os: seq<Row>, t: int) {
    && t >= 0 && (forall i | 0 <= i < |os| :: os[i].lastUpdated <= t)
    && (t == 0 || exists i :: 0 <= i < |os| && os[i].lastUpdated == t)
  }

  ghost predicate Trusted(os: seq<Row>) {
    exists i :: 0 <= i < |os| && (os[i].state == RowState.Learned || os[i].state == Approved)
  }

  lemma {:induction false} FilledObserved(os: seq<Row>)
    requires forall i | 0 <= i < |os| :: os[i].metric.Known?
    ensures MostObserved(os, Filled(os).obsCount)
  {
    if os != [] {
      var (before, row) := (os[..|os| - 1], os[|os| - 1]);
      FilledObserved(before);
      RowAdds(Filled(before), row, Pps);
      var n := Filled(os).obsCount;
      forall i | 0 <= i < |os| ensures os[i].observations <= n {
        if i < |before| { assert before[i].observations <= Filled(before).obsCount; }
      }
      if n != 0 && n != row.observations {
        var i :| 0 <= i < |before| && before[i].observations == n;
        assert os[i].observations == n;
      }
    }
  }

  lemma {:induction false} FilledWindows(os: seq<Row>)
    requires forall i | 0 <= i < |os| :: os[i].metric.Known?
    ensures MostWindows(os, Filled(os).windows)
  {
    if os != [] {
      var (before, row) := (os[..|os| - 1], os[|os| - 1]);
      FilledWindows(before);
      RowAdds(Filled(before), row, Pps);
      var (was, n, w) := (Filled(before).windows, Filled(os).windows, Entry(row, Windows));
      FloorBounds(w);
      assert was <= n && w < n as real + 1.0;
      forall i | 0 <= i < |os| ensures Entry(os[i], Windows) < n as real + 1.0 {
        if i < |before| { assert Entry(before[i], Windows) < was as real + 1.0; }
      }
      if w > was as real {
        assert n as real <= Entry(os[|before|], Windows);
      } else if n != 0 {
        var i :| 0 <= i < |before| && n as real <= Entry(before[i], Windows);
        assert n as real <= Entry(os[i], Windows);
      }
    }
  }

  lemma FloorBounds(w: real)
    ensures w.Floor as real <= w < w.Floor as real + 1.0
  {
  }

  lemma {:induction false} FilledConfident(os: seq<Row>)
    requires forall i | 0 <= i < |os| :: os[i].metric.Known?
    ensures MostConfident(os, Filled(os).confidence)
  {
    if os != [] {
      var (before, row) := (os[..|os| - 1], os[|os| - 1]);
      FilledConfident(before);
      RowAdds(Filled(before), row, Pps);
      var (was, c) := (Filled(before).confidence, Filled(os).confidence);
      forall i | 0 <= i < |os| ensures Entry(os[i], Confidence) <= c {
        if i < |before| { assert Entry(before[i], Confidence) <= was; }
      }
      if Entry(row, Confidence) > was {
        assert Entry(os[|before|], Confidence) == c;
      } else if c != 0.0 {
        var i :| 0 <= i < |before| && Entry(before[i], Confidence) == c;
        assert Entry(os[i], Confidence) == c;
      }
    }
  }

  lemma {:induction false} FilledDates(os: seq<Row>)
    requires forall i | 0 <= i < |os| :: os[i].metric.Known?
    ensures Earliest(os, Filled(os).firstSeen) && LastUpdate(os, Filled(os).lastSeen)
  {
    if os != [] {
      var (before, row) := (os[..|os| - 1], os[|os| - 1]);
      FilledDates(before);
      RowAdds(Filled(before), row, Pps);
      EarlierStill(os, Filled(before).firstSeen, Filled(os).firstSeen);
      LaterStill(os, Filled(before).lastSeen, Filled(os).lastSeen);
    }
  }

  lemma EarlierStill(os: seq<Row>, was: int, t: int)
    requires os != [] && Earliest(os[..|os| - 1], was)
    requires var created := os[|os| - 1].createdAt;
      t == if created != 0 && (was == 0 || created < was) then created else was
    ensures Earliest(os, t)
  {
    var before := os[..|os| - 1];
    forall i | 0 <= i < |os| && os[i].createdAt != 0 ensures t != 0 && t <= os[i].createdAt {
      if i < |before| { assert before[i].createdAt != 0; }
    }
    if t != 0 && t != os[|before|].createdAt {
      var i :| 0 <= i < |before| && before[i].createdAt == t;
      assert os[i].createdAt == t;
    }
  }

  lemma LaterStill(os: seq<Row>, was: int, t: int)
    requires os != [] && LastUpdate(os[..|os| - 1], was)
    requires t == if os[|os| - 1].lastUpdated > was then os[|os| - 1].lastUpdated else was
    ensures LastUpdate(os, t)
  {
    var before := os[..|os| - 1];
    forall i | 0 <= i < |os| ensures os[i].lastUpdated <= t {
      if i < |before| { assert before[i].lastUpdated <= was; }
    }
    if t != 0 && t != os[|before|].lastUpdated {
      var i :| 0 <= i < |before| && before[i].lastUpdated == t;
      assert os[i].lastUpdated == t;
    }
  }

  lemma {:induction false} FilledPromoted(os: seq<Row>)
    requires forall i | 0 <= i < |os| :: os[i].metric.Known?
    ensures Filled(os).promoted <==> Trusted(os)
  {
    if os != [] {
      var (before, row) := (os[..|os| - 1], os[|os| - 1]);
      FilledPromoted(before);
      RowAdds(Filled(before), row, Pps);
      if i :| 0 <= i < |before| && (before[i].state == RowState.Learned || before[i].state == Approved) {
        assert os[i].state == before[i].state;
      }
      if i :| 0 <= i < |os| && (os[i].state == RowState.Learned || os[i].state == Approved) {
        if i < |before| { assert before[i].state == os[i].state; }
      }
    }
  }

  /** The averages and triggers of the metric are those of its latest row, or 0. */
  ghost predicate Shows(p: Profile, os: seq<Row>, m: Metric) {
    if exists i :: Latest(os, m, i) then
      forall i | Latest(os, m, i) ::
        && Part(p.ewma, m) == Average(os[i]) && Part(p.peak, m) == Entry(os[i], Peak)
        && Part(p.global, m) == Entry(os[i], GlobalTrigger) && Part(p.effective, m) == Entry(os[i], EffectiveTrigger)
    else Part(p.ewma, m) == Part(p.peak, m) == Part(p.global, m) == Part(p.effective, m) == 0.0
  }

  lemma LatestStays(os: seq<Row>, m: Metric, i: int)
    requires os != [] && os[|os| - 1].metric != Known(m)
    ensures Latest(os[..|os| - 1], m, i) <==> Latest(os, m, i)
  {
    var before := os[..|os| - 1];
    if Latest(os, m, i) {
      forall j | i < j < |before| ensures before[j].metric != Known(m) { assert os[j].metric != Known(m); }
    }
    if Latest(before, m, i) {
      forall j | i < j < |os| ensures os[j].metric != Known(m) {
        if j < |before| { assert before[j].metric != Known(m); }
      }
    }
  }

  lemma {:induction false} FilledShows(os: seq<Row>, m: Metric)
    requires forall i | 0 <= i < |os| :: os[i].metric.Known?
    ensures Shows(Filled(os), os, m)
  {
    if os != [] {
      var (before, row) := (os[..|os| - 1], os[|os| - 1]);
      FilledShows(before, m);
      RowAdds(Filled(before), row, m);
      if row.metric == Known(m) {
        assert Latest(os, m, |os| - 1);
      } else {
        forall i: int { LatestStays(os, m, i); }
        ShowsMore(Filled(before), Filled(os), os, m);
      }
    }
  }

  lemma ShowsMore(p: Profile, q: Profile, os: seq<Row>, m: Metric)
    requires os != [] && Shows(p, os[..|os| - 1], m) && forall i :: Latest(os[..|os| - 1], m, i) <==> Latest(os, m, i)
    requires Part(q.ewma, m) == Part(p.ewma, m) && Part(q.peak, m) == Part(p.peak, m)
    requires Part(q.global, m) == Part(p.global, m) && Part(q.effective, m) == Part(p.effective, m)
    ensures Shows(q, os, m)
  {
    var before := os[..|os| - 1];
    if i :| Latest(os, m, i) {
      assert Latest(before, m, i);
    } else {
      forall i ensures !Latest(before, m, i) { assert !Latest(os, m, i); }
    }
    forall i | Latest(os, m, i) ensures Latest(before, m, i) && before[i] == os[i] { }
  }

  // ---------------------------------------------------------------- decoded profiles

  /** Repair gives a profile without windows its observations, and a promoted one without a SYN or scan peak half
      as much again as its average. */
  lemma RepairMeans(p: Profile, m: Metric)
    ensures var q := Repaired(p);
      && q.windows == (if p.windows == 0 then p.obsCount else p.windows)
      && q == p.(windows := q.windows, peak := q.peak)
      && Part(q.peak, m) == if p.promoted && (m == Syn || m == Scan) && Part(p.peak, m) == 0.0 && Part(p.ewma, m) > 0.0
                            then Part(p.ewma, m) * 1.5 else Part(p.peak, m)
  {
  }

  /** The source's rows decode to a profile exactly when one of them has an observation. */
  lemma DecodedIff(rows: seq<Row>, windowSeconds: int, source: string)
    ensures var os := Owned(rows, windowSeconds, source);
      source in Decoded(rows, windowSeconds) <==> exists i :: 0 <= i < |os| && os[i].observations > 0
  {
    var os := Owned(rows, windowSeconds, source);
    CollectedIsFilled(rows, windowSeconds, source);
    FilledObserved(os);
    if i :| 0 <= i < |os| && os[i].observations > 0 { assert Filled(os).obsCount > 0; }
  }

  lemma DecodedIsFilled(rows: seq<Row>, windowSeconds: int, source: string)
    requires source in Decoded(rows, windowSeconds)
    ensures Decoded(rows, windowSeconds)[source] == Repaired(Filled(Owned(rows, windowSeconds, source)))
  {
    CollectedIsFilled(rows, windowSeconds, source);
  }

  /** Its counts, times and flags are the extremes of the rows'; without windows it has as many as observations. */
  lemma DecodedCounts(rows: seq<Row>, windowSeconds: int, source: string)
    requires source in Decoded(rows, windowSeconds)
    ensures var (p, os) := (Decoded(rows, windowSeconds)[source], Owned(rows, windowSeconds, source));
      && MostObserved(os, p.obsCount) && (MostWindows(os, p.windows) || (MostWindows(os, 0) && p.windows == p.obsCount))
      && MostConfident(os, p.confidence) && Earliest(os, p.firstSeen) && LastUpdate(os, p.lastSeen)
      && (p.promoted <==> Trusted(os))
  {
    var os := Owned(rows, windowSeconds, source);
    DecodedIsFilled(rows, windowSeconds, source);
    RepairMeans(Filled(os), Pps);
    FilledObserved(os);
    FilledWindows(os);
    FilledConfident(os);
    FilledDates(os);
    FilledPromoted(os);
  }

  /** Its averages and triggers are those of the latest row of each metric, with the peak repaired. */
  lemma DecodedShows(rows: seq<Row>, windowSeconds: int, source: string, m: Metric, i: int)
    requires source in Decoded(rows, windowSeconds) && Latest(Owned(rows, windowSeconds, source), m, i)
    ensures var (p, row) := (Decoded(rows, windowSeconds)[source], Owned(rows, windowSeconds, source)[i]);
      && Part(p.ewma, m) == Average(row)
      && Part(p.global, m) == Entry(row, GlobalTrigger) && Part(p.effective, m) == Entry(row, EffectiveTrigger)
      && Part(p.peak, m)
         == if p.promoted && (m == Syn || m == Scan) && Entry(row, Peak) == 0.0 && Average(row) > 0.0
            then Average(row) * 1.5 else Entry(row, Peak)
  {
    var os := Owned(rows, windowSeconds, source);
    DecodedIsFilled(rows, windowSeconds, source);
    RepairMeans(Filled(os), m);
    FilledShows(os, m);
  }

  /** A metric without a row has no averages and no triggers. */
  lemma DecodedHides(rows: seq<Row>, windowSeconds: int, source: string, m: Metric)
    requires source in Decoded(rows, windowSeconds)
    requires forall i | 0 <= i < |Owned(rows, windowSeconds, source)| ::
      Owned(rows, windowSeconds, source)[i].metric != Known(m)
    ensures var p := Decoded(rows, windowSeconds)[source];
      Part(p.ewma, m) == Part(p.peak, m) == Part(p.global, m) == Part(p.effective, m) == 0.0
  {
    var os := Owned(rows, windowSeconds, source);
    DecodedIsFilled(rows, windowSeconds, source);
    RepairMeans(Filled(os), m);
    FilledShows(os, m);
    assert forall i :: !Latest(os, m, i);
  }

  // ---------------------------------------------------------------- the table

  /** A row is stored under its source and metric as it is, with missing times set to the clock, except that it
      keeps the creation time of the row it replaces. */
  lemma StoredMeans(table: Table, row: Row, clock: int)
    requires row.metric.Known?
    ensures var (kept, x) := (Stored(table, row, clock), (row.source, row.metric.metric));
      && KeyOf(row) == x
      && kept == row.(lastUpdated := kept.lastUpdated, createdAt := kept.createdAt)
      && kept.lastUpdated == (if row.lastUpdated != 0 then row.lastUpdated else clock)
      && kept.createdAt
         == if x in table then table[x].createdAt else if row.createdAt != 0 then row.createdAt else clock
  {
  }
}
