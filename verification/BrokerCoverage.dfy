/** What the broker promises when its store is reliable, and when its PEP is reliable as well. */
module BrokerCoverage {
  import opened Text
  import opened LeaseJournal
  import opened BrokerInvariants
  import opened BrokerRows

  ghost predicate StoreReliable(env: Env) {
    forall k :: !env.storeFails(k)
  }

  ghost predicate Reliable(env: Env) {
    StoreReliable(env) && forall k :: !env.pepFails(k)
  }

  // ---------------------------------------------------------------- known actions

  predicate Known(action: Action, level: Level) {
    action in ORDERED_ACTIONS && level in RISING
  }

  lemma {:induction false} PairVisited(actions: seq<Action>, levels: seq<Level>, a: Action, l: Level)
    requires a in actions && l in levels
    ensures (a, l) in Pairs(actions, levels)
  {
    if actions[0] == a { LevelVisited(a, levels, l); } else { PairVisited(actions[1..], levels, a, l); }
  }

  lemma {:induction false} LevelVisited(a: Action, levels: seq<Level>, l: Level)
    requires l in levels
    ensures (a, l) in PairsOf(a, levels)
  {
    if levels[0] != l { LevelVisited(a, levels[1..], l); }
  }

  /** Every known pair is among the ones the two scans visit. */
  lemma KnownVisited(requested: Action, action: Action, level: Level)
    requires requested in ORDERED_ACTIONS && Known(action, level)
    ensures (action, level) in Pairs(ActionsWithRequested(requested), RISING)
    ensures (action, level) in Pairs(ActionsWithRequested(requested), FALLING)
  {
    assert action in ActionsWithRequested(requested) by {
      var rest := Without(ORDERED_ACTIONS, requested);
      assert action == requested || action in rest;
    }
    assert level in FALLING by { assert FALLING[0] == Block && FALLING[1] == Hard && FALLING[2] == Soft; }
    PairVisited(ActionsWithRequested(requested), RISING, action, level);
    PairVisited(ActionsWithRequested(requested), FALLING, action, level);
  }

  lemma KnownStrength(action: Action, level: Level)
    requires Known(action, level)
    ensures Strength(action, level) > 0
  {
  }

  // ---------------------------------------------------------------- effect of the two scans

  ghost predicate ActiveOn(l: Lease, target: string) {
    l.status == Active && l.target == target
  }

  /** The scan's result bounds the strength of every active lease it can see. */
  lemma {:induction false} StrongestBounds(env: Env, w: World, target: string, pairs: seq<Pair>, weight: nat)
    requires StoreReliable(env) && RowsOk(w.leases) && UniqueActive(w.leases)
    ensures
      var s := Strongest(env, w, target, pairs, weight).1;
      && s.Scanned? && weight <= s.weight
      && (forall id | id in w.leases && ActiveOn(w.leases[id], target)
        && (w.leases[id].action, w.leases[id].level) in pairs
            :: Strength(w.leases[id].action, w.leases[id].level) <= s.weight)
    decreases |pairs|
  {
    if pairs != [] {
      LookupHit(w.leases, target, pairs[0].0, pairs[0].1);
      var (w1, f) := FindActive(env, w, target, pairs[0].0, pairs[0].1);
      var s0 := if f.Hit? then Strength(f.lease.action, f.lease.level) else 0;
      var weight1 := if s0 > weight then s0 else weight;
      StrongestBounds(env, w1, target, pairs[1..], weight1);
      forall id | id in w.leases && ActiveOn(w.leases[id], target) && (w.leases[id].action, w.leases[id].level) in pairs
        ensures Strength(w.leases[id].action, w.leases[id].level) <= Strongest(env, w1, target, pairs[1..],
          weight1).1.weight
      {
        if (w.leases[id].action, w.leases[id].level) !in pairs[1..] {
          assert IsActive(w.leases[id], target, pairs[0].0, pairs[0].1);
          assert f.Hit? && f.lease.id == id;
        }
      }
    }
  }

  /** What the retirement scan does to one row. */
  function AfterSupersede(l: Lease, applied: Lease, pairs: seq<Pair>): Lease {
    if l.status == Active && l.target == applied.target && l.id != applied.id && (l.action, l.level) in pairs
       && Strength(l.action, l.level) < Strength(applied.action, applied.level)
    then l.(status := Superseded) else l
  }

  /** The pairs a grant of `lease` visits to retire weaker leases: none for an action without strength. */
  function RetirePairs(lease: Lease): seq<Pair> {
    if Strength(lease.action, lease.level) == 0 then [] else Pairs(ActionsWithRequested(lease.action), RISING)
  }

  lemma StaysUnlessWeaker(l: Lease, applied: Lease, pairs: seq<Pair>)
    requires Strength(l.action, l.level) >= Strength(applied.action, applied.level)
    ensures AfterSupersede(l, applied, pairs) == l
  {
  }

  lemma {:induction false} SupersedeEffect(env: Env, w: World, applied: Lease, pairs: seq<Pair>)
    requires StoreReliable(env) && JournalOk(w.leases)
    ensures
      var (w', ok) := Supersede(env, w, applied, pairs);
      && ok && w'.leases.Keys == w.leases.Keys && w'.tokens == w.tokens && w'.log == w.log
      && forall id | id in w.leases :: w'.leases[id] == AfterSupersede(w.leases[id], applied, pairs)
    decreases |pairs|
  {
    if pairs != [] {
      LookupHit(w.leases, applied.target, pairs[0].0, pairs[0].1);
      var (w1, f) := FindActive(env, w, applied.target, pairs[0].0, pairs[0].1);
      var retire := f.Hit? && f.lease.id != applied.id
        && Strength(f.lease.action, f.lease.level) < Strength(applied.action, applied.level);
      var w2 := if retire then UpdateStatus(env, w1, f.lease.id, Superseded).0 else w1;
      if retire { StatusKeepsJournal(w.leases, f.lease.id, Superseded); }
      SupersedeEffect(env, w2, applied, pairs[1..]);
      var w3 := Supersede(env, w2, applied, pairs[1..]).0;
      forall id | id in w.leases ensures w3.leases[id] == AfterSupersede(w.leases[id], applied, pairs) {
        SupersedeHead(w.leases, w2.leases, f, retire, applied, pairs, id);
      }
    }
  }

  lemma SupersedeHead(leases: map<string, Lease>, next: map<string, Lease>, f: Found, retire: bool, applied: Lease,
                      pairs: seq<Pair>, id: string)
    requires JournalOk(leases) && pairs != [] && id in leases && next.Keys == leases.Keys
    requires f == Lookup3(leases, applied.target, pairs[0].0, pairs[0].1)
    requires retire == (f.Hit? && f.lease.id != applied.id
      && Strength(f.lease.action, f.lease.level) < Strength(applied.action, applied.level))
    requires next == if retire && f.lease.id in leases
      then leases[f.lease.id := leases[f.lease.id].(status := Superseded)] else leases
    ensures AfterSupersede(next[id], applied, pairs[1..]) == AfterSupersede(leases[id], applied, pairs)
  {
    LookupHit(leases, applied.target, pairs[0].0, pairs[0].1);
    var l := leases[id];
    if (l.action, l.level) == pairs[0] && l.status == Active && l.target == applied.target {
      assert IsActive(l, applied.target, pairs[0].0, pairs[0].1);
      assert f.Hit? && f.lease.id == id;
    } else if retire {
      assert f.lease.id != id;
    }
  }

  // ---------------------------------------------------------------- equal strength

  ghost predicate AllKnown(leases: map<string, Lease>) {
    forall id | id in leases :: Known(leases[id].action, leases[id].level)
  }

  /** No weaker lease stays active beside a stronger one. */
  ghost predicate EqualStrength(leases: map<string, Lease>) {
    forall i, j | i in leases && j in leases && leases[i].status == Active && ActiveOn(leases[j], leases[i].target) ::
      Strength(leases[i].action, leases[i].level) == Strength(leases[j].action, leases[j].level)
  }

  ghost predicate NoneAbove(leases: map<string, Lease>, target: string, bound: nat) {
    forall id | id in leases && ActiveOn(leases[id], target) :: Strength(leases[id].action, leases[id].level) <= bound
  }

  lemma DemotedKeeps(w: World, v: World, target: string, bound: nat)
    requires Demoted(w, v)
    ensures AllKnown(w.leases) ==> AllKnown(v.leases)
    ensures EqualStrength(w.leases) ==> EqualStrength(v.leases)
    ensures NoneAbove(w.leases, target, bound) ==> NoneAbove(v.leases, target, bound)
  {
    if EqualStrength(w.leases) {
      forall i, j | i in v.leases && j in v.leases && v.leases[i].status == Active
        && ActiveOn(v.leases[j], v.leases[i].target)
        ensures Strength(v.leases[i].action, v.leases[i].level) == Strength(v.leases[j].action, v.leases[j].level)
      {
        assert ActiveOn(w.leases[j], w.leases[i].target);
      }
    }
    if NoneAbove(w.leases, target, bound) {
      forall id | id in v.leases && ActiveOn(v.leases[id], target)
        ensures Strength(v.leases[id].action, v.leases[id].level) <= bound
      {
        assert ActiveOn(w.leases[id], target);
      }
    }
  }

  lemma NoStrongerBounds(env: Env, w: World, r: Resolution, target: string)
    requires StoreReliable(env) && RowsOk(w.leases) && UniqueActive(w.leases) && AllKnown(w.leases)
      && Known(r.action, r.level)
    requires NoStronger(env, w, r, target).1 == Open
    ensures NoneAbove(w.leases, target, Strength(r.action, r.level))
  {
    KnownStrength(r.action, r.level);
    AllVisited(w.leases, r.action);
    ScanBounds(env, w, target, Pairs(ActionsWithRequested(r.action), FALLING), Strength(r.action, r.level));
  }

  lemma AllVisited(leases: map<string, Lease>, requested: Action)
    requires AllKnown(leases) && requested in ORDERED_ACTIONS
    ensures forall id | id in leases :: (leases[id].action, leases[id].level) in Pairs(ActionsWithRequested(requested),
      FALLING)
  {
    forall id | id in leases
      ensures (leases[id].action, leases[id].level) in Pairs(ActionsWithRequested(requested), FALLING)
    {
      KnownVisited(requested, leases[id].action, leases[id].level);
    }
  }

  lemma ScanBounds(env: Env, w: World, target: string, pairs: seq<Pair>, bound: nat)
    requires StoreReliable(env) && RowsOk(w.leases) && UniqueActive(w.leases)
    requires forall id | id in w.leases :: (w.leases[id].action, w.leases[id].level) in pairs
    requires var s := Strongest(env, w, target, pairs, 0).1; s.ScanError? || s.weight <= bound
    ensures NoneAbove(w.leases, target, bound)
  {
    StrongestBounds(env, w, target, pairs, 0);
  }

  /** The gate lets an action through only if nothing active on its target is stronger. */
  lemma GateBounds(env: Env, w: World, r: Resolution)
    requires StoreReliable(env) && Inv(w) && AllKnown(w.leases) && Known(r.action, r.level)
    requires Gates(env, w, r, r.target).1 == Open
    ensures NoneAbove(w.leases, r.target, Strength(r.action, r.level))
  {
    var target := r.target;
    PrerequisitesRead(env, w, r.action, target, env.policy.allowances);
    NoStrongerBounds(env, Prerequisites(env, w, r.action, target, env.policy.allowances).0, r, target);
  }

  /** The journal after a grant whose PEP call succeeded: the new lease active, weaker ones retired. */
  ghost predicate GrantedRows(w: World, w': World, lease: Lease) {
    && w'.leases.Keys == w.leases.Keys + {lease.id}
    && w'.leases[lease.id] == lease.(status := Active)
    && (forall id | id in w.leases :: w'.leases[id] == AfterSupersede(w.leases[id], lease, RetirePairs(lease)))
    && w'.tokens == w.tokens[lease.target := lease.token]
    && w'.log == w.log + [Applied(lease.target, lease.id)]
  }

  lemma GrantEffect(env: Env, w: World, r: Resolution, id: string, now: int)
    requires StoreReliable(env) && Inv(w) && id !in w.leases
    requires forall j | j in w.leases :: !IsActive(w.leases[j], r.target, r.action, r.level)
    ensures
      var (w', o) := Grant(env, w, r, id, now);
      var lease := NewLease(r, id, now);
      if !ApplyWorks(env, w.pepCalls, r.active) then
        o == Error && w'.tokens == w.tokens && w'.log == w.log
        && w'.leases == w.leases[id := lease.(status := Failed)]
      else
        o == Granted(id) && GrantedRows(w, w', lease)
  {
    var lease := NewLease(r, id, now);
    InsertKeeps(env, w, lease);
    var w1 := Upsert(env, w, lease).0;
    PepApplyKeeps(env, w1, lease, r.active);
    if ApplyWorks(env, w.pepCalls, r.active) {
      GrantActivates(env, w, w1, PepApply(env, w1, lease, r.active).0, lease);
    }
  }

  /** From a journaled intent whose PEP call succeeded to the rows at the end. */
  lemma GrantActivates(env: Env, w: World, w1: World, w2: World, lease: Lease)
    requires StoreReliable(env) && JournalOk(w1.leases) && lease.id !in w.leases
      && w1.leases == w.leases[lease.id := lease]
    requires forall j | j in w.leases :: !IsActive(w.leases[j], lease.target, lease.action, lease.level)
    requires lease.status == Pending && w2.leases == w1.leases
    requires w2.tokens == w.tokens[lease.target := lease.token] && w2.log == w.log + [Applied(lease.target, lease.id)]
    ensures var (w', ok) := SupersedeWeaker(env, UpdateStatus(env, w2, lease.id, Active).0, lease);
      ok && GrantedRows(w, w', lease)
  {
    ActivateEffect(env, w2, lease);
  }

  lemma ActivateEffect(env: Env, w: World, lease: Lease)
    requires StoreReliable(env) && JournalOk(w.leases) && lease.id in w.leases && w.leases[lease.id] == lease
    requires forall j | j in w.leases :: !IsActive(w.leases[j], lease.target, lease.action, lease.level)
    ensures
      var w1 := UpdateStatus(env, w, lease.id, Active).0;
      var (w', ok) := SupersedeWeaker(env, w1, lease);
      && ok && w'.leases.Keys == w.leases.Keys && w'.tokens == w.tokens && w'.log == w.log
      && w'.leases[lease.id] == lease.(status := Active)
      && forall id | id in w.leases && id != lease.id ::
           w'.leases[id] == AfterSupersede(w.leases[id], lease, RetirePairs(lease))
  {
    StatusKeepsJournal(w.leases, lease.id, Active);
    var w1 := UpdateStatus(env, w, lease.id, Active).0;
    SupersedeEffect(env, w1, lease, RetirePairs(lease));
    assert w1.leases[lease.id] == lease.(status := Active);
    assert forall id | id in w.leases && id != lease.id :: w1.leases[id] == w.leases[id];
  }

  ghost predicate AllAt(leases: map<string, Lease>, target: string, strength: nat) {
    forall id | id in leases && ActiveOn(leases[id], target) ::
      Strength(leases[id].action, leases[id].level) == strength
  }

  lemma SurvivorStrength(l: Lease, lease: Lease, pairs: seq<Pair>)
    requires l.id != lease.id && (l.action, l.level) in pairs
    requires ActiveOn(AfterSupersede(l, lease, pairs), lease.target)
    ensures ActiveOn(l, lease.target) && AfterSupersede(l, lease, pairs) == l
    ensures Strength(l.action, l.level) >= Strength(lease.action, lease.level)
  {
  }

  lemma GrantLevels(w: World, w': World, lease: Lease)
    requires AllKnown(w.leases) && Known(lease.action, lease.level) && RowsOk(w.leases) && lease.id !in w.leases
    requires NoneAbove(w.leases, lease.target, Strength(lease.action, lease.level))
    requires GrantedRows(w, w', lease)
    ensures AllAt(w'.leases, lease.target, Strength(lease.action, lease.level))
  {
    KnownStrength(lease.action, lease.level);
    forall id | id in w.leases && ActiveOn(w'.leases[id], lease.target)
      ensures Strength(w'.leases[id].action, w'.leases[id].level) == Strength(lease.action, lease.level)
    {
      KnownVisited(lease.action, w.leases[id].action, w.leases[id].level);
      SurvivorStrength(w.leases[id], lease, Pairs(ActionsWithRequested(lease.action), RISING));
    }
  }

  lemma GrantElsewhere(w: World, w': World, lease: Lease, i: string)
    requires GrantedRows(w, w', lease)
    requires i in w'.leases && w'.leases[i].target != lease.target
    ensures i in w.leases && w'.leases[i] == w.leases[i]
  {
  }

  lemma GrantEqualStrength(w: World, w': World, lease: Lease)
    requires AllKnown(w.leases) && EqualStrength(w.leases) && Known(lease.action, lease.level)
    requires NoneAbove(w.leases, lease.target, Strength(lease.action, lease.level)) && RowsOk(w.leases)
    requires lease.id !in w.leases && GrantedRows(w, w', lease)
    ensures EqualStrength(w'.leases)
  {
    GrantLevels(w, w', lease);
    forall i, j | i in w'.leases && j in w'.leases && w'.leases[i].status == Active
      && ActiveOn(w'.leases[j], w'.leases[i].target)
      ensures Strength(w'.leases[i].action, w'.leases[i].level) == Strength(w'.leases[j].action, w'.leases[j].level)
    {
      if w'.leases[i].target == lease.target {
        assert ActiveOn(w'.leases[i], lease.target);
      } else {
        GrantElsewhere(w, w', lease, i);
        GrantElsewhere(w, w', lease, j);
        assert ActiveOn(w.leases[j], w.leases[i].target);
      }
    }
  }

  lemma GrantKnown(w: World, w': World, lease: Lease)
    requires AllKnown(w.leases) && Known(lease.action, lease.level)
    requires GrantedRows(w, w', lease)
    ensures AllKnown(w'.leases)
  {
  }

  ghost predicate Graded(w: World) {
    Inv(w) && AllKnown(w.leases) && EqualStrength(w.leases)
  }

  lemma ApplyGraded(env: Env, w: World, r: Resolution, id: string, now: int)
    requires StoreReliable(env) && Graded(w) && id !in w.leases
    requires NeedsLease(r) ==> Known(r.action, r.level)
    ensures Graded(Apply(env, w, r, id, now).0)
  {
    ApplyKeeps(env, w, r, id, now);
    if NeedsLease(r) {
      var target := r.target;
      GatesRead(env, w, r, target);
      var (w1, g) := Gates(env, w, r, target);
      if g == Open {
        GateBounds(env, w, r);
        OnlyReadsKeeps(w, w1);
        RenewKeeps(env, w1, r, now);
        var (w2, kept) := Renew(env, w1, r, now);
        DemotedKeeps(w1, w2, target, Strength(r.action, r.level));
        if kept == NotRenewed {
          GrantEffect(env, w2, r, id, now);
          if ApplyWorks(env, w2.pepCalls, r.active) {
            GrantEqualStrength(w2, Grant(env, w2, r, id, now).0, NewLease(r, id, now));
            GrantKnown(w2, Grant(env, w2, r, id, now).0, NewLease(r, id, now));
          }
        }
      }
    }
  }

  lemma RevertDemotes(env: Env, w: World, lease: Lease)
    ensures Demoted(w, Revert(env, w, lease).0)
  {
    var (w1, current) := CurrentToken(env, w, lease);
    if current.None? {
      StatusDemotes(env, w1, lease.id, Failed);
    } else if current.value != lease.token {
      StatusDemotes(env, w1, lease.id, Conflict);
    } else {
      var (w2, ok) := PepRevert(env, w1, lease);
      StatusDemotes(env, w2, lease.id, if ok then Reverted else Failed);
    }
  }

  lemma {:induction false} RevertAllDemotes(env: Env, w: World, leases: seq<Lease>)
    requires forall i | 0 <= i < |leases| :: CopyOfRow(w, leases[i])
    ensures Demoted(w, RevertAll(env, w, leases).0)
    decreases |leases|
  {
    if leases != [] {
      RevertDemotes(env, w, leases[0]);
      var (w1, ok) := Revert(env, w, leases[0]);
      forall i | 0 <= i < |leases| { RevertKeepsRows(env, w, leases[0], leases[i]); }
      if ok { RevertAllDemotes(env, w1, leases[1..]); }
    }
  }

  lemma {:induction false} FailAllDemotes(env: Env, w: World, leases: seq<Lease>)
    ensures Demoted(w, FailAll(env, w, leases).0)
    decreases |leases|
  {
    if leases != [] {
      var (w1, ok) := UpdateStatus(env, w, leases[0].id, Failed);
      if ok { FailAllDemotes(env, w1, leases[1..]); }
    }
  }

  ghost predicate KnownOp(op: Op) {
    op.DoApply? && NeedsLease(op.r) ==> Known(op.r.action, op.r.level)
  }

  lemma ListedAreCopies(w: World, v: World, listed: seq<Lease>, status: Status, upTo: Option<int>)
    requires Lists(w.leases, listed, status, upTo) && OnlyReads(w, v)
    ensures forall i | 0 <= i < |listed| :: CopyOfRow(v, listed[i])
  {
  }

  lemma RevertAllGraded(env: Env, w: World, listed: seq<Lease>)
    requires Graded(w) && forall i | 0 <= i < |listed| :: CopyOfRow(w, listed[i])
    ensures Graded(RevertAll(env, w, listed).0)
  {
    RevertAllKeeps(env, w, listed);
    RevertAllDemotes(env, w, listed);
    DemotedKeeps(w, RevertAll(env, w, listed).0, "", 0);
  }

  lemma FailAllGraded(env: Env, w: World, listed: seq<Lease>)
    requires Graded(w)
    ensures Graded(FailAll(env, w, listed).0)
  {
    FailAllKeeps(env, w, listed);
    FailAllDemotes(env, w, listed);
    DemotedKeeps(w, FailAll(env, w, listed).0, "", 0);
  }

  lemma OnlyReadsGraded(w: World, v: World)
    requires Graded(w) && OnlyReads(w, v)
    ensures Graded(v)
  {
  }

  lemma ExpireIsSweep(env: Env, w: World, listed: seq<Lease>)
    ensures var w1 := w.(storeCalls := w.storeCalls + 1);
      RevertExpired(env, w, listed).0 == if env.storeFails(w.storeCalls) then w1 else RevertAll(env, w1, listed).0
    ensures var w1 := w.(storeCalls := w.storeCalls + 1);
      ReconcilePending(env, w, listed).0 == if env.storeFails(w.storeCalls) then w1 else FailAll(env, w1, listed).0
  {
  }

  lemma ExpireGraded(env: Env, w: World, listed: seq<Lease>, now: int)
    requires Graded(w) && Lists(w.leases, listed, Active, Some(now))
    ensures Graded(RevertExpired(env, w, listed).0)
  {
    ExpireIsSweep(env, w, listed);
    var w1 := w.(storeCalls := w.storeCalls + 1);
    OnlyReadsGraded(w, w1);
    ListedAreCopies(w, w1, listed, Active, Some(now));
    RevertAllGraded(env, w1, listed);
  }

  lemma ReconcileGraded(env: Env, w: World, listed: seq<Lease>)
    requires Graded(w)
    ensures Graded(ReconcilePending(env, w, listed).0)
  {
    ExpireIsSweep(env, w, listed);
    var w1 := w.(storeCalls := w.storeCalls + 1);
    OnlyReadsGraded(w, w1);
    FailAllGraded(env, w1, listed);
  }

  lemma NextGraded(env: Env, w: World, op: Op)
    requires StoreReliable(env) && Graded(w) && Enabled(w, op) && KnownOp(op)
    ensures Graded(Next(env, w, op))
  {
    match op
    case DoApply(r, id, now, policy) => ApplyGraded(Under(env, policy), w, r, id, now);
    case DoExpire(now, listed) => ExpireGraded(env, w, listed, now);
    case DoReconcile(listed) => ReconcileGraded(env, w, listed);
  }

  /** With a reliable store and the five ordered actions, whatever the PEP does: all active leases on
      one target have equal strength. */
  lemma {:induction false} EqualStrengthInvariant(env: Env, ops: seq<Op>)
    requires StoreReliable(env) && IsRun(env, ops) && forall i | 0 <= i < |ops| :: KnownOp(ops[i])
    ensures Graded(After(env, ops))
  {
    if ops != [] {
      EqualStrengthInvariant(env, ops[..|ops| - 1]);
      NextGraded(env, After(env, ops[..|ops| - 1]), ops[|ops| - 1]);
    }
  }

  // ---------------------------------------------------------------- TTL coverage

  /** A revert can tell, from the lease, what to stop enforcing. */
  predicate Decodes(env: Env, l: Lease) {
    env.names(l.target, l.metadata).Some?
  }

  ghost predicate AllDecode(env: Env, leases: map<string, Lease>) {
    forall id | id in leases :: Decodes(env, leases[id])
  }

  /** An apply the PEP can serve: it is told what to enforce, and the lease will name something to revert. */
  predicate Served(env: Env, op: Op) {
    op.DoApply? && NeedsLease(op.r) ==> op.r.active.Some? && env.names(op.r.target, op.r.metadata).Some?
  }

  /** The lease whose token the PEP remembers for `t` is active. (`Inv` adds that it is a lease on `t`
      carrying that token.) */
  ghost predicate CoveredAt(w: World, t: string) {
    t in w.tokens ==> w.tokens[t].leaseId in w.leases && w.leases[w.tokens[t].leaseId].status == Active
  }

  ghost predicate Covered(w: World) {
    Inv(w) && forall t :: CoveredAt(w, t)
  }

  /** Under the invariant, a remembered token names a row on its own target. */
  lemma TokenRow(w: World, t: string)
    requires Inv(w) && t in w.tokens
    ensures var id := w.tokens[t].leaseId;
      id in w.leases && w.leases[id].target == t && w.leases[id].token == w.tokens[t] && Holder(w.log, t) == Some(id)
  {
  }

  /** Retiring a row leaves every target covered that does not rely on it. */
  lemma RetireCoverage(env: Env, w: World, id: string, status: Status, t: string)
    requires Inv(w) && id in w.leases && CoveredAt(w, t)
    requires t in w.tokens ==> w.tokens[t].leaseId != id
    ensures CoveredAt(UpdateStatus(env, w, id, status).0, t)
  {
  }

  lemma RenewFoundCoverage(env: Env, w: World, existing: Lease, r: Resolution, now: int, t: string)
    requires Reliable(env) && Inv(w) && CoveredAt(w, t)
    requires existing.id in w.leases && w.leases[existing.id] == existing
      && IsActive(existing, r.target, r.action, r.level)
    ensures
      var (w', res) := RenewFound(env, w, existing, r, now);
      res != RenewError && (t != r.target || res.Kept? ==> CoveredAt(w', t))
  {
    if t in w.tokens { TokenRow(w, t); }
    if ExecutionChanged(existing.metadata, r.metadata) {
      if t != existing.target { RetireCoverage(env, w, existing.id, Superseded, t); }
    } else {
      var (w1, current) := CurrentToken(env, w, existing);
      OnlyReadsKeeps(w, w1);
      if t != existing.target { RetireCoverage(env, w1, existing.id, Conflict, t); }
    }
  }

  lemma RenewCoverage(env: Env, w: World, r: Resolution, now: int, t: string)
    requires Reliable(env) && Inv(w) && CoveredAt(w, t)
    ensures
      var (w', res) := Renew(env, w, r, now);
      res != RenewError && (t != r.target || res.Kept? ==> CoveredAt(w', t))
  {
    LookupHit(w.leases, r.target, r.action, r.level);
    var (w1, f) := FindActive(env, w, r.target, r.action, r.level);
    OnlyReadsKeeps(w, w1);
    if f.Hit? { RenewFoundCoverage(env, w1, f.lease, r, now, t); }
  }

  lemma GrantCoverage(w: World, w': World, lease: Lease, t: string)
    requires Inv(w) && lease.token.leaseId == lease.id && lease.id !in w.leases && GrantedRows(w, w', lease)
    requires t != lease.target ==> CoveredAt(w, t)
    ensures CoveredAt(w', t)
  {
    if t != lease.target && t in w.tokens { TokenRow(w, t); }
  }

  lemma ApplyCovered(env: Env, w: World, r: Resolution, id: string, now: int)
    requires Reliable(env) && Covered(w) && id !in w.leases && (NeedsLease(r) ==> r.active.Some?)
    ensures Covered(Apply(env, w, r, id, now).0)
  {
    ApplyKeeps(env, w, r, id, now);
    forall t ensures CoveredAt(Apply(env, w, r, id, now).0, t) {
      ApplyCoveredAt(env, w, r, id, now, t);
    }
  }

  lemma ApplyCoveredAt(env: Env, w: World, r: Resolution, id: string, now: int, t: string)
    requires Reliable(env) && Inv(w) && CoveredAt(w, t) && id !in w.leases && (NeedsLease(r) ==> r.active.Some?)
    ensures CoveredAt(Apply(env, w, r, id, now).0, t)
  {
    if NeedsLease(r) {
      GatesRead(env, w, r, r.target);
      var (w1, g) := Gates(env, w, r, r.target);
      if g == Open {
        OnlyReadsKeeps(w, w1);
        RenewKeeps(env, w1, r, now);
        RenewCoverage(env, w1, r, now, t);
        var (w2, kept) := Renew(env, w1, r, now);
        if kept == NotRenewed {
          GrantEffect(env, w2, r, id, now);
          GrantCoverage(w2, Grant(env, w2, r, id, now).0, NewLease(r, id, now), t);
        }
      }
    }
  }

  /** A reliable revert retires its lease, whatever the token says, and uncovers nothing. */
  lemma RevertCovered(env: Env, w: World, lease: Lease)
    requires Reliable(env) && Covered(w) && CopyOfRow(w, lease) && Decodes(env, lease)
    ensures
      var (w', ok) := Revert(env, w, lease);
      ok && Covered(w') && w'.leases[lease.id].status != Active
  {
    RevertKeeps(env, w, lease);
    forall t ensures CoveredAt(Revert(env, w, lease).0, t) {
      if t in w.tokens { TokenRow(w, t); }
      RevertCoveredAt(env, w, lease, t);
    }
  }

  lemma RevertCoveredAt(env: Env, w: World, lease: Lease, t: string)
    requires Reliable(env) && Inv(w) && CoveredAt(w, t) && CopyOfRow(w, lease) && Decodes(env, lease)
    ensures CoveredAt(Revert(env, w, lease).0, t)
  {
    if t in w.tokens { TokenRow(w, t); }
    if lease.target in w.tokens { TokenRow(w, lease.target); }
  }

  /** The leases are copies of rows, and a revert can read them. */
  ghost predicate Copies(env: Env, w: World, leases: seq<Lease>) {
    forall i | 0 <= i < |leases| :: CopyOfRow(w, leases[i]) && Decodes(env, leases[i])
  }

  ghost predicate Retired(w: World, leases: seq<Lease>) {
    forall i | 0 <= i < |leases| :: leases[i].id in w.leases && w.leases[leases[i].id].status != Active
  }

  lemma CopiesAfterRevert(env: Env, w: World, leases: seq<Lease>)
    requires RowsOk(w.leases) && leases != [] && Copies(env, w, leases)
    ensures Copies(env, Revert(env, w, leases[0]).0, leases[1..])
  {
    var w1 := Revert(env, w, leases[0]).0;
    forall i | 0 <= i < |leases[1..]| ensures CopyOfRow(w1, leases[1..][i]) && Decodes(env, leases[1..][i]) {
      RevertKeepsRows(env, w, leases[0], leases[i + 1]);
    }
  }

  lemma RetiredStays(w: World, w': World, leases: seq<Lease>)
    requires Demoted(w, w') && leases != []
    requires leases[0].id in w.leases && w.leases[leases[0].id].status != Active && Retired(w', leases[1..])
    ensures Retired(w', leases)
  {
    forall i | 0 <= i < |leases| ensures leases[i].id in w'.leases && w'.leases[leases[i].id].status != Active {
      if i > 0 { assert leases[i] == leases[1..][i - 1]; }
    }
  }

  lemma RevertAllDemotesCopies(env: Env, w: World, leases: seq<Lease>)
    requires Copies(env, w, leases)
    ensures Demoted(w, RevertAll(env, w, leases).0)
  {
    RevertAllDemotes(env, w, leases);
  }

  lemma FirstCovered(env: Env, w: World, leases: seq<Lease>)
    requires Reliable(env) && Covered(w) && leases != [] && Copies(env, w, leases)
    ensures var ((w1, ok), id) := (Revert(env, w, leases[0]), leases[0].id);
      ok && Covered(w1) && Copies(env, w1, leases[1..]) && id in w1.leases && w1.leases[id].status != Active
  {
    assert CopyOfRow(w, leases[0]);
    RevertCovered(env, w, leases[0]);
    CopiesAfterRevert(env, w, leases);
  }

  lemma {:induction false} RevertAllCovered(env: Env, w: World, leases: seq<Lease>)
    requires Reliable(env) && Covered(w) && Copies(env, w, leases)
    ensures
      var (w', ok) := RevertAll(env, w, leases);
      ok && Covered(w') && Retired(w', leases)
    decreases |leases|
  {
    if leases != [] {
      var w1 := Revert(env, w, leases[0]).0;
      FirstCovered(env, w, leases);
      RevertAllCovered(env, w1, leases[1..]);
      RevertAllDemotesCopies(env, w1, leases[1..]);
      RetiredStays(w1, RevertAll(env, w1, leases[1..]).0, leases);
    }
  }

  lemma {:induction false} RevertAllElsewhere(env: Env, w: World, leases: seq<Lease>, id: string)
    requires RowsOk(w.leases) && forall i | 0 <= i < |leases| :: CopyOfRow(w, leases[i])
    requires id in w.leases && forall i | 0 <= i < |leases| :: leases[i].id != id
    ensures id in RevertAll(env, w, leases).0.leases && RevertAll(env, w, leases).0.leases[id] == w.leases[id]
    decreases |leases|
  {
    if leases != [] {
      forall i | 0 <= i < |leases| { RevertKeepsRows(env, w, leases[0], leases[i]); }
      RevertKeepsRows(env, w, leases[0], w.leases[id]);
      var (w1, ok) := Revert(env, w, leases[0]);
      if ok { RevertAllElsewhere(env, w1, leases[1..], id); }
    }
  }

  ghost predicate UnexpiredAfter(leases: map<string, Lease>, now: int) {
    forall id | id in leases && leases[id].status == Active :: leases[id].expiresAt > now
  }

  lemma OnlyReadsCovered(w: World, v: World)
    requires Covered(w) && OnlyReads(w, v)
    ensures Covered(v)
  {
    forall t ensures CoveredAt(v, t) { assert CoveredAt(w, t); }
  }

  lemma SweptRow(w: World, w': World, listed: seq<Lease>, now: int, id: string)
    requires Lists(w.leases, listed, Active, Some(now)) && Demoted(w, w') && id in w'.leases
      && w'.leases[id].status == Active
    requires Retired(w', listed)
    requires (forall i | 0 <= i < |listed| :: listed[i].id != id) ==> w'.leases[id] == w.leases[id]
    ensures w'.leases[id].expiresAt > now
  {
    assert forall i | 0 <= i < |listed| :: listed[i].id != id;
    assert !Selected(w.leases[id], Active, Some(now));
  }

  lemma ExpireCovered(env: Env, w: World, now: int, listed: seq<Lease>)
    requires Reliable(env) && Covered(w) && AllDecode(env, w.leases) && Lists(w.leases, listed, Active, Some(now))
    ensures
      var (w', ok) := RevertExpired(env, w, listed);
      ok && Covered(w') && UnexpiredAfter(w'.leases, now)
  {
    var w1 := w.(storeCalls := w.storeCalls + 1);
    OnlyReadsCovered(w, w1);
    ListedCopies(env, w, w1, listed, now);
    RevertAllCovered(env, w1, listed);
    SweptRows(env, w1, listed, now);
  }

  lemma ListedCopies(env: Env, w: World, v: World, listed: seq<Lease>, now: int)
    requires AllDecode(env, w.leases) && Lists(w.leases, listed, Active, Some(now)) && OnlyReads(w, v)
    ensures Copies(env, v, listed)
  {
    ListedAreCopies(w, v, listed, Active, Some(now));
    forall i | 0 <= i < |listed| ensures Decodes(env, listed[i]) { assert listed[i].id in w.leases; }
  }

  lemma SweptRows(env: Env, w: World, listed: seq<Lease>, now: int)
    requires RowsOk(w.leases) && Lists(w.leases, listed, Active, Some(now)) && Copies(env, w, listed)
    requires Retired(RevertAll(env, w, listed).0, listed)
    ensures UnexpiredAfter(RevertAll(env, w, listed).0.leases, now)
  {
    var w' := RevertAll(env, w, listed).0;
    RevertAllDemotesCopies(env, w, listed);
    forall id | id in w'.leases && w'.leases[id].status == Active ensures w'.leases[id].expiresAt > now {
      if forall i | 0 <= i < |listed| :: listed[i].id != id { RevertAllElsewhere(env, w, listed, id); }
      SweptRow(w, w', listed, now, id);
    }
  }

  lemma {:induction false} FailAllCovered(env: Env, w: World, leases: seq<Lease>)
    requires Covered(w) && forall i | 0 <= i < |leases| ::
      leases[i].id in w.leases && w.leases[leases[i].id].status != Active
    ensures Covered(FailAll(env, w, leases).0)
    decreases |leases|
  {
    if leases != [] {
      UpdateStatusKeeps(env, w, leases[0].id, Failed);
      var (w1, ok) := UpdateStatus(env, w, leases[0].id, Failed);
      forall t ensures CoveredAt(w1, t) { assert CoveredAt(w, t); }
      if ok { FailAllCovered(env, w1, leases[1..]); }
    }
  }

  lemma ReconcileCovered(env: Env, w: World, listed: seq<Lease>)
    requires Covered(w) && Lists(w.leases, listed, Pending, None)
    ensures Covered(ReconcilePending(env, w, listed).0)
  {
    var w1 := w.(storeCalls := w.storeCalls + 1);
    OnlyReadsCovered(w, w1);
    FailAllCovered(env, w1, listed);
  }

  lemma AlwaysDecode(env: Env, ops: seq<Op>)
    requires IsRun(env, ops) && forall i | 0 <= i < |ops| :: Served(env, ops[i])
    ensures AllDecode(env, After(env, ops).leases)
  {
    var p: LeaseProperty := (l: Lease) => Decodes(env, l);
    forall i | 0 <= i < |ops| && ops[i].DoApply? && NeedsLease(ops[i].r)
      ensures Establishes(p, Under(env, ops[i].policy), ops[i].r) { }
    RowsFromApplies(p, env, ops);
    forall id | id in After(env, ops).leases ensures Decodes(env, After(env, ops).leases[id]) {
      assert p(After(env, ops).leases[id]);
    }
  }

  lemma {:induction false} CoveredRun(env: Env, ops: seq<Op>)
    requires Reliable(env) && IsRun(env, ops) && forall i | 0 <= i < |ops| :: Served(env, ops[i])
    ensures Covered(After(env, ops))
  {
    if ops != [] {
      var (init, op) := (ops[..|ops| - 1], ops[|ops| - 1]);
      CoveredRun(env, init);
      AlwaysDecode(env, init);
      match op
      case DoApply(r, id, now, policy) => ApplyCovered(Under(env, policy), After(env, init), r, id, now);
      case DoExpire(now, listed) => ExpireCovered(env, After(env, init), now, listed);
      case DoReconcile(listed) => ReconcileCovered(env, After(env, init), listed);
    }
  }

  /** TTL coverage: when no call fails and the PEP can serve every apply, whatever enforcement is in force on a
      target belongs to an active lease on that target, whose token the PEP remembers. */
  lemma TtlCoverage(env: Env, ops: seq<Op>, t: string, id: string)
    requires Reliable(env) && IsRun(env, ops) && forall i | 0 <= i < |ops| :: Served(env, ops[i])
    requires InForce(After(env, ops).log, t, id)
    ensures var w := After(env, ops);
      && id in w.leases && w.leases[id].status == Active && w.leases[id].target == t
      && t in w.tokens && w.tokens[t] == w.leases[id].token
  {
    CoveredRun(env, ops);
    var w := After(env, ops);
    HolderIsInForce(w.log, t, id);
    assert CoveredAt(w, t);
    TokenRow(w, t);
  }

  lemma SweepCovers(env: Env, ops: seq<Op>, now: int, listed: seq<Lease>)
    requires Reliable(env) && IsRun(env, ops + [DoExpire(now, listed)])
    requires forall i | 0 <= i < |ops| :: Served(env, ops[i])
    ensures var w := After(env, ops + [DoExpire(now, listed)]); Covered(w) && UnexpiredAfter(w.leases, now)
  {
    var run := ops + [DoExpire(now, listed)];
    assert run[..|run| - 1] == ops && run[|run| - 1] == DoExpire(now, listed);
    CoveredRun(env, ops);
    AlwaysDecode(env, ops);
    ExpireCovered(env, After(env, ops), now, listed);
  }

  /** And right after an expiry sweep at `now`, that lease expires strictly later: no enforcement
      outlives its TTL. */
  lemma SweepLeavesUnexpired(env: Env, ops: seq<Op>, now: int, listed: seq<Lease>, t: string, id: string)
    requires Reliable(env) && IsRun(env, ops + [DoExpire(now, listed)])
    requires forall i | 0 <= i < |ops| :: Served(env, ops[i])
    requires InForce(After(env, ops + [DoExpire(now, listed)]).log, t, id)
    ensures var w := After(env, ops + [DoExpire(now, listed)]);
      id in w.leases && w.leases[id].status == Active && w.leases[id].expiresAt > now
  {
    SweepCovers(env, ops, now, listed);
    var w := After(env, ops + [DoExpire(now, listed)]);
    HolderIsInForce(w.log, t, id);
    assert CoveredAt(w, t);
    TokenRow(w, t);
  }
}
