/** The bounded in-memory engine over baseline profiles: profiles are objects updated in place, and the least
    trusted one makes room for a new key. */
module BaselineEngine {
  import opened Reals
  import opened Text
  import opened MetricBaseline

  /** Result of an update, read off the profile afterwards. */
  datatype Result = Result(expected: real, score: real, confidence: real, learned: bool, promoted: bool, peak: real)

  function ResultOf(s: Stats, o: Observation, sqrt: real -> real, cfg: Config): Result
    requires cfg.sigmaFloor > 0.0 && cfg.deviationThreshold > 0.0
  {
    Result(s.ewma, Score(s, o.value, sqrt(s.variance), cfg), s.confidence, !o.suspicious, s.promoted, s.peak)
  }

  /** Field by field. */
  predicate Reports(r: Result, s: Stats, o: Observation, sqrt: real -> real, cfg: Config)
    requires cfg.sigmaFloor > 0.0 && cfg.deviationThreshold > 0.0
  {
    && r.expected == s.ewma && r.confidence == s.confidence && r.promoted == s.promoted && r.peak == s.peak
    && (r.learned <==> !o.suspicious) && r.score == Score(s, o.value, sqrt(s.variance), cfg)
  }

  type Table = map<string, Stats>

  /** A profile no other profile is less trusted than. */
  ghost predicate LeastTrusted(t: Table, victim: string) {
    victim in t && forall k | k in t :: t[victim].confidence <= t[k].confidence
  }

  /** The profile an update starts from. */
  function Start(t: Table, key: string, now: int): Stats {
    if key in t then t[key] else Fresh(now)
  }

  /** What an update does: other profiles stay as they are, except that a new key evicts a least trusted
      profile when the table is full. */
  ghost predicate Updates(t: Table, t': Table, key: string, o: Observation, cfg: Config) {
    var s := Update(Start(t, key, o.now), o, cfg);
    if key in t || |t| < cfg.maxProfiles then t' == t[key := s]
    else exists victim :: LeastTrusted(t, victim) && t' == (t - {victim})[key := s]
  }

  lemma Overwrite(t: Table, key: string, s: Stats, s': Stats)
    ensures t[key := s][key := s'] == t[key := s']
  {
  }

  function Evicted(t: Table, cutoff: int): Table {
    map k | k in t && t[k].lastSeen >= cutoff :: t[k]
  }

  ghost predicate AllSound(t: Table, cfg: Config) {
    forall k | k in t :: Sound(t[k], cfg)
  }

  lemma SoundWith(t: Table, key: string, s: Stats, cfg: Config)
    requires AllSound(t, cfg) && Sound(s, cfg)
    ensures AllSound(t[key := s], cfg) && AllSound(t - {key}, cfg)
  {
  }

  datatype Op = Observed(key: string, o: Observation) | Swept(cutoff: int)

  ghost predicate Steps(t: Table, t': Table, op: Op, cfg: Config) {
    match op
    case Observed(key, o) => Updates(t, t', key, o, cfg)
    case Swept(cutoff) => t' == Evicted(t, cutoff)
  }

  /** The tables an engine passes through, whichever of several least trusted profiles it evicts. */
  ghost predicate IsRun(ts: seq<Table>, ops: seq<Op>, cfg: Config) {
    |ts| == |ops| + 1 && ts[0] == map[] && forall i | 0 <= i < |ops| :: Steps(ts[i], ts[i + 1], ops[i], cfg)
  }

  lemma StepKeepsLimit(t: Table, t': Table, op: Op, cfg: Config)
    requires cfg.minCount > 0 && cfg.maxProfiles > 0 && Steps(t, t', op, cfg)
    requires |t| <= cfg.maxProfiles && AllSound(t, cfg)
    ensures |t'| <= cfg.maxProfiles && AllSound(t', cfg)
  {
    match op
    case Swept(_) => Smaller(t'.Keys, t.Keys);
    case Observed(key, o) =>
      var s := Update(Start(t, key, o.now), o, cfg);
      UpdateKeepsSound(Start(t, key, o.now), o, cfg);
      SoundWith(t, key, s, cfg);
      if key in t || |t| < cfg.maxProfiles {
        Smaller(t'.Keys, t.Keys + {key});
        if key in t { assert t.Keys + {key} == t.Keys; }
      } else {
        var victim :| LeastTrusted(t, victim) && t' == (t - {victim})[key := s];
        SoundWith(t, victim, s, cfg);
        SoundWith(t - {victim}, key, s, cfg);
        assert t'.Keys == t.Keys - {victim} + {key};
      }
  }

  /** The engine never holds more profiles than its limit, and each of them is sound. */
  lemma {:induction false} AlwaysBounded(ts: seq<Table>, ops: seq<Op>, cfg: Config, i: nat)
    requires cfg.minCount > 0 && cfg.maxProfiles > 0 && IsRun(ts, ops, cfg) && i < |ts|
    ensures |ts[i]| <= cfg.maxProfiles && AllSound(ts[i], cfg)
  {
    if i > 0 {
      AlwaysBounded(ts, ops, cfg, i - 1);
      StepKeepsLimit(ts[i - 1], ts[i], ops[i - 1], cfg);
    }
  }

  /** Every profile is still there and has learned nothing. */
  ghost predicate Spares(t: Table, t': Table) {
    forall k | k in t :: k in t' && SameLearning(t'[k], t[k])
  }

  /** Anti-poisoning of the whole engine: a suspicious update leaves everything learned in place exactly when
      its key has a profile already or the table has room. Otherwise it evicts a least trusted profile. */
  lemma SuspiciousSparesIff(t: Table, t': Table, key: string, o: Observation, cfg: Config)
    requires o.suspicious && Updates(t, t', key, o, cfg)
    ensures Spares(t, t') <==> key in t || |t| < cfg.maxProfiles
  {
    if key in t || |t| < cfg.maxProfiles {
      if key in t { UpdateLearning(t[key], t[key], o, cfg); }
    } else {
      var victim :| LeastTrusted(t, victim) && t' == (t - {victim})[key := Update(Start(t, key, o.now), o, cfg)];
      assert victim !in t';
    }
  }

  ghost predicate Distinct(profiles: map<string, Profile>) {
    forall j, k | j in profiles && k in profiles && j != k :: profiles[j] != profiles[k]
  }

  lemma Detached(before: map<string, Profile>, after: map<string, Profile>, key: string)
    requires key in before && after == before - {key} && Distinct(before)
    ensures Distinct(after) && |after| == |before| - 1 && after.Keys <= before.Keys
  {
    assert after.Keys == before.Keys - {key};
  }

  lemma Shrunk(before: map<string, Profile>, after: map<string, Profile>)
    requires after.Keys <= before.Keys && Distinct(before) && forall k | k in after :: after[k] == before[k]
    ensures Distinct(after) && |after| <= |before|
  {
    Smaller(after.Keys, before.Keys);
  }

  lemma Smaller(a: set<string>, b: set<string>)
    requires a <= b
    ensures |a| <= |b|
  {
    assert b == a + (b - a);
  }

  lemma Attached(before: map<string, Profile>, after: map<string, Profile>, key: string, p: Profile)
    requires key !in before && after == before[key := p] && Distinct(before) && p !in before.Values
    ensures Distinct(after) && |after| == |before| + 1
  {
    assert after.Keys == before.Keys + {key};
    assert forall k | k in before :: before[k] in before.Values;
  }

  // ---------------------------------------------------------------- the engine

  class Engine {
    const cfg: Config
    var profiles: map<string, Profile>

    /** Distinct keys never share a profile object; the table is within its limit; every profile is sound. */
    ghost predicate Valid()
      reads this, profiles.Values
    {
      && cfg.maxProfiles > 0 && cfg.sigmaFloor > 0.0 && cfg.deviationThreshold > 0.0 && cfg.minCount > 0
      && Distinct(profiles) && |profiles| <= cfg.maxProfiles && "" !in profiles
      && AllSound(Value(), cfg)
    }

    ghost function Value(): (t: Table)
      reads this, profiles.Values
      ensures t.Keys == profiles.Keys && |t| == |profiles|
    {
      var t := map k | k in profiles :: profiles[k].Value();
      assert t.Keys == profiles.Keys;
      t
    }

    constructor (settings: Config)
      ensures Valid() && Value() == map[] && cfg == Normalize(settings)
    {
      cfg := Normalize(settings);
      profiles := map[];
    }

    /** The first profile met whose confidence is below every earlier one. */
    method FindVictim() returns (victim: string)
      requires Valid() && |profiles| > 0
      ensures LeastTrusted(Value(), victim)
      ensures victim in Value() && forall k | k in Value() :: Value()[victim].confidence <= Value()[k].confidence
    {
      victim := "";
      var (rest, least) := (profiles.Keys, 2.0);
      while rest != {}
        invariant rest <= profiles.Keys
        invariant victim == "" ==> rest == profiles.Keys && least == 2.0
        invariant victim != "" ==> victim in profiles && least == profiles[victim].confidence
        invariant forall k | k in profiles && k !in rest :: least <= profiles[k].confidence
        decreases |rest|
      {
        var k :| k in rest;
        assert Sound(Value()[k], cfg);
        if profiles[k].confidence < least { least, victim := profiles[k].confidence, k; }
        rest := rest - {k};
      }
      assert profiles.Keys != {};
    }

    method Remove(key: string)
      requires Valid() && key in profiles
      modifies this
      ensures Valid() && profiles == old(profiles) - {key} && Value() == old(Value()) - {key}
    {
      ghost var t := Value();
      SoundWith(t, key, Fresh(0), cfg);
      Detached(profiles, profiles - {key}, key);
      profiles := profiles - {key};
      assert Value() == t - {key};
    }

    method Attach(key: string, p: Profile)
      requires Valid() && key != "" && key !in profiles && |profiles| < cfg.maxProfiles
      requires p !in profiles.Values && Sound(p.Value(), cfg)
      modifies this
      ensures Valid() && profiles == old(profiles)[key := p] && Value() == old(Value())[key := p.Value()]
    {
      ghost var t := Value();
      SoundWith(t, key, p.Value(), cfg);
      Attached(profiles, profiles[key := p], key, p);
      profiles := profiles[key := p];
      assert Value() == t[key := p.Value()];
    }

    method Insert(key: string, now: int)
      requires Valid() && key != "" && key !in profiles && |profiles| < cfg.maxProfiles
      modifies this
      ensures Valid() && key in profiles && fresh(profiles[key]) && profiles == old(profiles)[key := profiles[key]]
      ensures Value() == old(Value())[key := Fresh(now)]
    {
      var p := new Profile(now);
      Attach(key, p);
    }

    method MakeRoom() returns (ghost gone: string)
      requires Valid() && |profiles| >= cfg.maxProfiles
      modifies this
      ensures Valid() && |profiles| < cfg.maxProfiles && profiles == old(profiles) - {gone}
      ensures LeastTrusted(old(Value()), gone) && Value() == old(Value()) - {gone}
    {
      var victim := FindVictim();
      if victim != "" { Remove(victim); }
      gone := victim;
    }

    /** Make room when the table is full, then start a profile for the key. */
    method Admit(key: string, now: int) returns (ghost gone: Option<string>)
      requires Valid() && key != "" && key !in profiles
      modifies this
      ensures Valid() && key in profiles && fresh(profiles[key]) && fresh(profiles.Values - old(profiles.Values))
      ensures match gone
        case None => |old(Value())| < cfg.maxProfiles && Value() == old(Value())[key := Fresh(now)]
        case Some(victim) =>
          && |old(Value())| >= cfg.maxProfiles && LeastTrusted(old(Value()), victim)
          && Value() == (old(Value()) - {victim})[key := Fresh(now)]
    {
      gone := None;
      if |profiles| >= cfg.maxProfiles {
        ghost var victim := MakeRoom();
        gone := Some(victim);
      }
      Insert(key, now);
    }

    /** One update of an existing profile, in place. */
    method Touch(key: string, o: Observation)
      requires Valid() && key in profiles
      modifies profiles[key]
      ensures Valid() && Value() == old(Value())[key := Update(old(Value())[key], o, cfg)]
    {
      ghost var t := Value();
      UpdateKeepsSound(t[key], o, cfg);
      SoundWith(t, key, Update(t[key], o, cfg), cfg);
      profiles[key].Apply(o, cfg);
      assert Value() == t[key := Update(t[key], o, cfg)];
    }

    /** Score the observation against the profile it has just updated. */
    method Report(key: string, o: Observation, sqrt: real -> real) returns (result: Result)
      requires Valid() && key in profiles
      ensures result == ResultOf(Value()[key], o, sqrt, cfg) && Reports(result, Value()[key], o, sqrt, cfg)
    {
      var p := profiles[key];
      var score := if !p.promoted then 0.0
        else Min(Abs(o.value - p.ewma) / Sigma(sqrt(p.variance), cfg) / cfg.deviationThreshold * 100.0, 100.0);
      return Result(p.ewma, score, p.confidence, !o.suspicious, p.promoted, p.peak);
    }

    /** Find or start the key's profile and update it. */
    method Learn(key: string, o: Observation)
      requires Valid() && key != ""
      modifies this, profiles.Values
      ensures Valid() && fresh(profiles.Values - old(profiles.Values)) && key in profiles
      ensures Updates(old(Value()), Value(), key, o, cfg)
    {
      ghost var (before, gone) := (Value(), None);
      if key !in profiles { gone := Admit(key, o.now); }
      Touch(key, o);
      if gone.Some? {
        Overwrite(before - {gone.value}, key, Fresh(o.now), Value()[key]);
      } else if key !in before {
        Overwrite(before, key, Fresh(o.now), Value()[key]);
      }
    }

    /** `key` is a key's text, which is never empty. */
    method Observe(key: string, o: Observation, sqrt: real -> real) returns (result: Result)
      requires Valid() && key != ""
      modifies this, profiles.Values
      ensures Valid() && fresh(profiles.Values - old(profiles.Values))
      ensures Updates(old(Value()), Value(), key, o, cfg)
      ensures key in Value() && result == ResultOf(Value()[key], o, sqrt, cfg)
      ensures Reports(result, Value()[key], o, sqrt, cfg)
    {
      Learn(key, o);
      result := Report(key, o, sqrt);
    }

    /** Delete, in any order, the profiles not updated since the cutoff. */
    method DropStale(cutoff: int) returns (removed: nat)
      modifies this`profiles
      ensures profiles == map k | k in old(profiles) && old(profiles)[k].lastSeen >= cutoff :: old(profiles)[k]
      ensures removed == |old(profiles)| - |profiles|
    {
      removed := 0;
      var rest := profiles.Keys;
      while rest != {}
        invariant rest <= profiles.Keys
        invariant profiles == map k | k in old(profiles) && (k in rest || old(profiles)[k].lastSeen >= cutoff) ::
          old(profiles)[k]
        invariant removed == |old(profiles)| - |profiles|
        decreases |rest|
      {
        var k :| k in rest;
        rest := rest - {k};
        if profiles[k].lastSeen < cutoff {
          assert (profiles - {k}).Keys == profiles.Keys - {k};
          profiles := profiles - {k};
          removed := removed + 1;
        }
      }
    }

    method Evict(cutoff: int) returns (removed: nat)
      requires Valid()
      modifies this`profiles
      ensures Valid() && Value() == Evicted(old(Value()), cutoff)
      ensures Value() == map k | k in old(Value()) && old(Value())[k].lastSeen >= cutoff :: old(Value())[k]
      ensures removed == |old(Value())| - |Value()|
    {
      ghost var t := Value();
      removed := DropStale(cutoff);
      assert Value() == Evicted(t, cutoff);
      Shrunk(old(profiles), profiles);
    }
  }
}
