/** The engine's table over whole runs: every profile is the closed form of its own observations, and a full table
    gives up a least trusted one. */
module EngineHistory {
  import opened MetricBaseline
  import opened BaselineEngine
  import opened MetricHistory

  /** The key's observations since it was last absent, and the time of the first of them. */
  ghost function Lifetime(ts: seq<Table>, ops: seq<Op>, key: string, i: nat): (seq<Observation>, int)
    requires i < |ts| && |ts| == |ops| + 1
  {
    if i == 0 || key !in ts[i] then ([], 0)
    else
      var (os, start) := Lifetime(ts, ops, key, i - 1);
      match ops[i - 1]
      case Observed(k, o) =>
        if k != key then (os, start) else if key in ts[i - 1] then (os + [o], start) else ([o], o.now)
      case Swept(_) => (os, start)
  }

  lemma Touched(t: Table, t': Table, key: string, o: Observation, cfg: Config)
    requires Updates(t, t', key, o, cfg)
    ensures key in t' && t'[key] == Update(if key in t then t[key] else Fresh(o.now), o, cfg)
    ensures forall k | k in t' && k != key :: k in t && t'[k] == t[k]
  {
    if key !in t && |t| >= cfg.maxProfiles {
      var victim :| LeastTrusted(t, victim) && t' == (t - {victim})[key := Update(Fresh(o.now), o, cfg)];
    }
  }

  /** A stored profile is what a new one makes of the key's observations since the key was last absent. */
  lemma {:induction false} ProfileIsItsHistory(ts: seq<Table>, ops: seq<Op>, cfg: Config, key: string, i: nat)
    requires IsRun(ts, ops, cfg) && i < |ts| && key in ts[i]
    ensures var (os, start) := Lifetime(ts, ops, key, i);
      os != [] && start == os[0].now && ts[i][key] == Run(Fresh(start), os, cfg)
  {
    assert i > 0 && Steps(ts[i - 1], ts[i], ops[i - 1], cfg);
    if key in ts[i - 1] { ProfileIsItsHistory(ts, ops, cfg, key, i - 1); }
    match ops[i - 1]
    case Observed(k, o) =>
      Touched(ts[i - 1], ts[i], k, o, cfg);
      if k == key {
        var os := if key in ts[i - 1] then Lifetime(ts, ops, key, i - 1).0 else [];
        assert (os + [o])[..|os|] == os;
      }
    case Swept(_) =>
  }

  /** So its mean and variance are the weighted ones of the values it has learned since. */
  lemma ProfileIsMean(ts: seq<Table>, ops: seq<Op>, cfg: Config, key: string, i: nat)
    requires IsRun(ts, ops, cfg) && i < |ts| && key in ts[i]
    ensures var (s, xs) := (ts[i][key], Values(Lifetime(ts, ops, key, i).0));
      s.learned == |xs| && s.ewma == Mean(cfg, xs) && s.variance == Mean(cfg, Squares(cfg, xs))
  {
    ProfileIsItsHistory(ts, ops, cfg, key, i);
    RunIsMean(Lifetime(ts, ops, key, i).1, Lifetime(ts, ops, key, i).0, cfg);
  }

  /** No profile is less trusted, and it is the one that made room for the key. */
  ghost predicate MadeRoom(t: Table, t': Table, key: string, victim: string) {
    && victim in t && (forall k | k in t :: t[victim].confidence <= t[k].confidence)
    && t'.Keys == t.Keys - {victim} + {key}
  }

  lemma Replaces(t: Table, t': Table, key: string, victim: string, s: Stats)
    requires LeastTrusted(t, victim) && t' == (t - {victim})[key := s]
    ensures MadeRoom(t, t', key, victim)
  {
    assert t'.Keys == t.Keys - {victim} + {key};
  }

  /** An update leaves every other profile alone, unless its key is new and the table full: then one profile that
      none is less trusted than goes. */
  lemma UpdateMakesRoom(t: Table, t': Table, key: string, o: Observation, cfg: Config)
    requires Updates(t, t', key, o, cfg)
    ensures key in t' && forall k | k in t' && k != key :: k in t && t'[k] == t[k]
    ensures if key in t || |t| < cfg.maxProfiles then t'.Keys == t.Keys + {key}
            else exists victim :: MadeRoom(t, t', key, victim)
  {
    Touched(t, t', key, o, cfg);
    if key !in t && |t| >= cfg.maxProfiles {
      var s := Update(Start(t, key, o.now), o, cfg);
      var victim :| LeastTrusted(t, victim) && t' == (t - {victim})[key := s];
      Replaces(t, t', key, victim, s);
    } else {
      assert t'.Keys == t.Keys + {key};
    }
  }
}
