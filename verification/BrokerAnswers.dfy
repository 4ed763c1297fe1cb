/** What the broker's operations do, field by field: which answer an apply gives, what the rows are afterwards,
    and what reverts, sweeps and reconciliation leave of every lease. */
module BrokerAnswers {
  import opened Text
  import opened LeaseTargets
  import opened LeaseJournal
  import opened BrokerInvariants
  import opened BrokerRows
  import opened BrokerCoverage
  import opened BrokerGates
  import ActionBroker
  import TargetMeaning

  // ---------------------------------------------------------------- the request, read directly

  predicate Needs(r: Resolution) {
    r.allowed && r.level != NoLevel && r.level != Observe && r.ttl > 0
  }

  /** An active lease for exactly what is requested. */
  predicate Standing(l: Lease, r: Resolution) {
    l.status == Active && l.target == r.target && l.action == r.action && l.level == r.level
  }

  /** Some execution parameter differs, on either side. */
  ghost predicate ParamsDiffer(l: Lease, r: Resolution) {
    exists k :: k in l.metadata.Keys + r.metadata.Keys && EXECUTION_PREFIX <= k
                && ValueAt(l.metadata, k) != ValueAt(r.metadata, k)
  }

  predicate Graded(level: Level) {
    level == Soft || level == Hard || level == Block
  }

  predicate Ordered(action: Action) {
    action == Drop || action == Deny || action == Quarantine || action == Disable || action == RateLimit
  }

  /** Blocking actions weigh most whatever their level; others by their level. */
  function Rank(action: Action, level: Level): nat {
    if action == Drop || action == Deny || action == Quarantine || action == Disable || level == Block then 3
    else if level == Hard then 2 else if level == Soft then 1 else 0
  }

  lemma StrengthIsRank(action: Action, level: Level)
    ensures Strength(action, level) == 100 * Rank(action, level)
  {
  }

  /** An allowance for the action wants another one active on the target, and it is not. */
  ghost predicate PreviousMissing(policy: Policy, leases: map<string, Lease>, r: Resolution) {
    exists a :: a in policy.allowances && a.action == r.action && a.requiresPrevious != NoAction
                && forall id | id in leases :: !ActiveWith(leases[id], r.target, a.requiresPrevious)
  }

  predicate ActiveWith(l: Lease, target: string, action: Action) {
    l.status == Active && l.target == target && l.action == action && Graded(l.level)
  }

  /** An active lease on the target, under an ordered action or the requested one, weighs more. */
  ghost predicate Outweighed(leases: map<string, Lease>, r: Resolution) {
    Rank(r.action, r.level) > 0 && exists id :: id in leases && Outweighs(leases[id], r)
  }

  predicate Outweighs(l: Lease, r: Resolution) {
    && ActiveWith(l, r.target, l.action) && (Ordered(l.action) || (l.action == r.action && r.action != NoAction))
    && Rank(l.action, l.level) > Rank(r.action, r.level)
  }

  ghost predicate Held(policy: Policy, leases: map<string, Lease>, r: Resolution) {
    PreviousMissing(policy, leases, r) || Outweighed(leases, r)
  }

  /** The request a broker makes of what the resolver authorized: decision, action, level and TTL as they are, the
      target as text, and the request, the target and its parameters as metadata. */
  lemma RequestSays(a: ActionBroker.ActionResolution, active: Option<string>, k: string)
    ensures var r := ActionBroker.Plan(a, active);
      && (r.decisionId, r.allowed, r.action, r.level, r.ttl, r.active)
         == (a.decisionId, a.allowed, a.action, a.level, a.ttl, active)
      && r.target == (if a.target.granularity == "" then "" else a.target.granularity + ":") + a.target.value
      && ValueAt(r.metadata, "requested_action") == a.requestedAction
      && ValueAt(r.metadata, "requested_level") == a.requestedLevel
      && ValueAt(r.metadata, "target_granularity") == a.target.granularity
      && ValueAt(r.metadata, "target_value") == a.target.value
      && ("target_attr." + k in r.metadata <==> k in a.target.attributes)
      && (k in a.target.attributes ==> r.metadata["target_attr." + k] == a.target.attributes[k])
      && ("param." + k in r.metadata <==> k in a.parameters)
      && (k in a.parameters ==> r.metadata["param." + k] == a.parameters[k])
  {
    TargetMeaning.MetadataSays(a.requestedAction, a.requestedLevel, a.target, a.parameters, k);
    assert "" + a.target.value == a.target.value;
  }

  // ---------------------------------------------------------------- the gates

  lemma {:induction false} PairsIff(actions: seq<Action>, levels: seq<Level>, a: Action, l: Level)
    ensures (a, l) in Pairs(actions, levels) <==> a in actions && l in levels
  {
    if actions != [] {
      PairsOfIff(actions[0], levels, a, l);
      PairsIff(actions[1..], levels, a, l);
      assert a in actions <==> a == actions[0] || a in actions[1..];
    }
  }

  lemma {:induction false} PairsOfIff(action: Action, levels: seq<Level>, a: Action, l: Level)
    ensures (a, l) in PairsOf(action, levels) <==> a == action && l in levels
  {
    if levels != [] {
      PairsOfIff(action, levels[1..], a, l);
      assert l in levels <==> l == levels[0] || l in levels[1..];
    }
  }

  lemma ScannedIff(requested: Action, a: Action, l: Level)
    ensures (a, l) in Pairs(ActionsWithRequested(requested), FALLING)
        <==> (Ordered(a) || (a == requested && requested != NoAction)) && Graded(l)
    ensures (a, l) in Pairs(ActionsWithRequested(requested), RISING)
        <==> (Ordered(a) || (a == requested && requested != NoAction)) && Graded(l)
  {
    PairsIff(ActionsWithRequested(requested), FALLING, a, l);
    PairsIff(ActionsWithRequested(requested), RISING, a, l);
    LevelsIff(l);
    ActionsIff(requested, a);
  }

  lemma LevelsIff(l: Level)
    ensures (l in FALLING <==> Graded(l)) && (l in RISING <==> Graded(l))
  {
    assert FALLING == [Block, Hard, Soft] && RISING == [Soft, Hard, Block];
  }

  lemma ActionsIff(requested: Action, a: Action)
    ensures a in ActionsWithRequested(requested) <==> Ordered(a) || (a == requested && requested != NoAction)
  {
    assert a in ORDERED_ACTIONS <==> Ordered(a);
    assert a in ActionsWithRequested(requested)
      <==> (if requested == NoAction then a in ORDERED_ACTIONS
            else a == requested || a in Without(ORDERED_ACTIONS, requested));
  }

  lemma ActiveAmongIff(leases: map<string, Lease>, target: string, action: Action)
    ensures ActiveAmong(leases, target, action, RISING)
        <==> exists id :: id in leases && ActiveWith(leases[id], target, action)
  {
    if ActiveAmong(leases, target, action, RISING) {
      var level :| level in RISING && ActiveAt(leases, target, action, level);
      var id :| id in leases && IsActive(leases[id], target, action, level);
      LevelsIff(level);
      assert ActiveWith(leases[id], target, action);
    }
    if id :| id in leases && ActiveWith(leases[id], target, action) {
      LevelsIff(leases[id].level);
      assert ActiveAt(leases, target, action, leases[id].level);
    }
  }

  lemma MissesIff(policy: Policy, leases: map<string, Lease>, r: Resolution)
    ensures MissesAny(policy.allowances, leases, r.target, r.action) <==> PreviousMissing(policy, leases, r)
  {
    forall a: Allowance { ActiveAmongIff(leases, r.target, a.requiresPrevious); }
    if MissesAny(policy.allowances, leases, r.target, r.action) {
      var a :| a in policy.allowances && Misses(a, leases, r.target, r.action);
      assert forall id | id in leases :: !ActiveWith(leases[id], r.target, a.requiresPrevious);
    }
    if PreviousMissing(policy, leases, r) {
      var a :| a in policy.allowances && a.action == r.action && a.requiresPrevious != NoAction
               && forall id | id in leases :: !ActiveWith(leases[id], r.target, a.requiresPrevious);
      assert Misses(a, leases, r.target, r.action);
    }
  }

  lemma OutrankedIff(leases: map<string, Lease>, r: Resolution)
    ensures Outranked(leases, r) <==> Outweighed(leases, r)
  {
    StrengthIsRank(r.action, r.level);
    var pairs := Pairs(ActionsWithRequested(r.action), FALLING);
    if Outranked(leases, r) {
      var p :| p in pairs && ActiveAt(leases, r.target, p.0, p.1) && Strength(p.0, p.1) > Strength(r.action, r.level);
      var id :| id in leases && IsActive(leases[id], r.target, p.0, p.1);
      ScannedIff(r.action, p.0, p.1);
      StrengthIsRank(p.0, p.1);
      assert Outweighs(leases[id], r);
    }
    if Outweighed(leases, r) {
      var id :| id in leases && Outweighs(leases[id], r);
      var l := leases[id];
      ScannedIff(r.action, l.action, l.level);
      StrengthIsRank(l.action, l.level);
      assert ActiveAt(leases, r.target, l.action, l.level) && (l.action, l.level) in pairs;
    }
  }

  // ---------------------------------------------------------------- what the answers mean

  /** A renewed lease is active for another TTL under the new decision; nothing else about it, and no other
      lease, token or enforcement, changed. */
  lemma RenewedMeans(env: Env, w: World, r: Resolution, id: string, now: int, x: string)
    requires Inv(w) && id !in w.leases && Apply(env, w, r, id, now).1 == Renewed(x)
    ensures var w' := Apply(env, w, r, id, now).0;
      && x in w.leases && Standing(w.leases[x], r) && w'.leases.Keys == w.leases.Keys
      && (forall y | y in w.leases && y != x :: w'.leases[y] == w.leases[y])
      && w'.tokens == w.tokens && w'.enforced == w.enforced && w'.log == w.log
      && var (l, l') := (w.leases[x], w'.leases[x]);
      && l'.status == Active && l'.expiresAt == now + r.ttl && l'.decisionId == r.decisionId
      && l'.metadata == r.metadata && l'.renewals == l.renewals + 1
      && (l'.id, l'.target, l'.action, l'.level, l'.token, l'.appliedAt)
         == (l.id, l.target, l.action, l.level, l.token, l.appliedAt)
  {
    ApplyAnswers(env, w, r, id, now);
    RenewalEnforcesNothing(env, w, r, id, now, x);
  }

  lemma RenewalEnforcesNothing(env: Env, w: World, r: Resolution, id: string, now: int, x: string)
    requires Inv(w) && id !in w.leases && Apply(env, w, r, id, now).1 == Renewed(x)
    ensures Apply(env, w, r, id, now).0.enforced == w.enforced
  {
    GatesRead(env, w, r, r.target);
    var w1 := Gates(env, w, r, r.target).0;
    OnlyReadsKeeps(w, w1);
    RenewKeeps(env, w1, r, now);
  }

  /** A row that differs at most in its status. */
  predicate SameButStatus(l: Lease, l': Lease) {
    l' == l.(status := l'.status)
  }

  function Untouched(leases: map<string, Lease>, id: string): LeaseProperty {
    (l: Lease) => l.id == id || (l.id in leases && SameButStatus(leases[l.id], l))
  }

  /** A granted lease is new and active for its TTL, its target's token is its own, and what the caller asked
      for is enforced; of the other rows at most the status changed. */
  lemma GrantedMeans(env: Env, w: World, r: Resolution, id: string, now: int, x: string)
    requires Inv(w) && id !in w.leases && Apply(env, w, r, id, now).1 == Granted(x)
    ensures var w' := Apply(env, w, r, id, now).0;
      && x == id && w'.leases.Keys == w.leases.Keys + {id}
      && (forall y | y in w.leases :: SameButStatus(w.leases[y], w'.leases[y]))
      && var l := w'.leases[id];
      && (l.id, l.decisionId, l.target, l.action, l.level) == (id, r.decisionId, r.target, r.action, r.level)
      && l.status == Active && l.appliedAt == now && l.expiresAt == now + r.ttl
      && l.metadata == r.metadata && l.renewals == 0
      && l.token == Token(r.target, r.action, r.level, r.decisionId, id)
      && w'.tokens == w.tokens[r.target := l.token]
      && r.active.Some? && w'.enforced == w.enforced + {r.active.value} && w'.log == w.log + [Applied(r.target, id)]
  {
    ApplyAnswers(env, w, r, id, now);
    GatesRead(env, w, r, r.target);
    var w1 := Gates(env, w, r, r.target).0;
    OnlyReadsKeeps(w, w1);
    RenewKeeps(env, w1, r, now);
    var w2 := Renew(env, w1, r, now).0;
    GrantedLeavesRows(env, w1, r, id, now);
    GrantedEnforces(env, w2, r, id, now);
  }

  lemma GrantedLeavesRows(env: Env, w: World, r: Resolution, id: string, now: int)
    requires Inv(w) && id !in w.leases && Renew(env, w, r, now).1 == NotRenewed
    ensures var (w2, p) := (Renew(env, w, r, now).0, Untouched(w.leases, id));
      RowsAll(p, Grant(env, w2, r, id, now).0.leases)
  {
    var p := Untouched(w.leases, id);
    RenewOtherwise(p, env, w, r, now);
    assert p(NewLease(r, id, now));
    GrantRows(p, env, Renew(env, w, r, now).0, r, id, now);
  }

  lemma GrantedEnforces(env: Env, w: World, r: Resolution, id: string, now: int)
    requires Inv(w) && id !in w.leases && Grant(env, w, r, id, now).1 == Granted(id)
    requires forall j | j in w.leases :: !IsActive(w.leases[j], r.target, r.action, r.level)
    ensures var w' := Grant(env, w, r, id, now).0;
      && w'.leases.Keys == w.leases.Keys + {id} && RowsOk(w'.leases)
      && w'.tokens == w.tokens[r.target := NewLease(r, id, now).token]
      && r.active.Some? && w'.enforced == w.enforced + {r.active.value} && w'.log == w.log + [Applied(r.target, id)]
  {
    var lease := NewLease(r, id, now);
    InsertKeeps(env, w, lease);
    var w1 := Upsert(env, w, lease).0;
    PepApplyKeeps(env, w1, lease, r.active);
    ActivationKeeps(env, PepApply(env, w1, lease, r.active).0, lease);
  }

  /** Activating a lease and retiring weaker ones changes statuses only. */
  lemma ActivationKeeps(env: Env, w: World, lease: Lease)
    requires Inv(w) && lease.id in w.leases && w.leases[lease.id] == lease
    requires forall j | j in w.leases :: !IsActive(w.leases[j], lease.target, lease.action, lease.level)
    ensures var w' := SupersedeWeaker(env, UpdateStatus(env, w, lease.id, Active).0, lease).0;
      RowsOk(w'.leases) && w'.leases.Keys == w.leases.Keys
      && w'.tokens == w.tokens && w'.enforced == w.enforced && w'.log == w.log
  {
    UpdateStatusKeeps(env, w, lease.id, Active);
    RetirementKeeps(env, UpdateStatus(env, w, lease.id, Active).0, lease);
  }

  lemma RetirementKeeps(env: Env, w: World, lease: Lease)
    requires Inv(w)
    ensures var w' := SupersedeWeaker(env, w, lease).0;
      RowsOk(w'.leases) && w'.leases.Keys == w.leases.Keys
      && w'.tokens == w.tokens && w'.enforced == w.enforced && w'.log == w.log
  {
    SupersedeKeeps(env, w, lease, Pairs(ActionsWithRequested(lease.action), RISING));
  }

  // ---------------------------------------------------------------- which answer it is, when no call fails

  lemma AnswersWithoutLease(env: Env, w: World, r: Resolution, id: string, now: int)
    requires !Needs(r)
    ensures Apply(env, w, r, id, now) == (w, if r.allowed then NoLease else Denied)
  {
  }

  /** A request that needs a lease is skipped exactly when it is held back; then nothing changes. */
  lemma SkippedExactly(env: Env, w: World, r: Resolution, id: string, now: int)
    requires StoreReliable(env) && Inv(w) && Needs(r) && id !in w.leases
    ensures Apply(env, w, r, id, now).1 == Skipped <==> Held(env.policy, w.leases, r)
    ensures Held(env.policy, w.leases, r) ==>
      var w' := Apply(env, w, r, id, now).0;
      (w'.leases, w'.tokens, w'.enforced, w'.log) == (w.leases, w.tokens, w.enforced, w.log)
  {
    SkippedIff(env, w, r, id, now);
    MissesIff(env.policy, w.leases, r);
    OutrankedIff(w.leases, r);
    ApplyAnswers(env, w, r, id, now);
  }

  /** The standing lease of a request is not the one whose token its target remembers. */
  predicate Displaced(w: World, l: Lease) {
    l.target in w.tokens && w.tokens[l.target] != l.token
  }

  /** The world and the verdict of a renewal attempt, before anything is written. */
  lemma RenewalDecides(env: Env, w: World, r: Resolution, now: int, x: string)
    requires Reliable(env) && Inv(w) && x in w.leases && Standing(w.leases[x], r)
    ensures var (res, l) := (Renew(env, w, r, now).1, w.leases[x]);
      res == if ParamsDiffer(l, r) || Displaced(w, l) then NotRenewed
             else if 0 < env.policy.maxRenewals <= l.renewals then Kept(RenewalCapped(x)) else Kept(Renewed(x))
  {
    LookupHit(w.leases, r.target, r.action, r.level);
    var (w1, f) := FindActive(env, w, r.target, r.action, r.level);
    assert IsActive(w.leases[x], r.target, r.action, r.level);
    assert f == Hit(w.leases[x]);
    ParamsDifferIff(w.leases[x], r);
  }

  lemma ParamsDifferIff(l: Lease, r: Resolution)
    ensures ExecutionChanged(l.metadata, r.metadata) <==> ParamsDiffer(l, r)
  {
  }

  lemma NothingStands(env: Env, w: World, r: Resolution, now: int)
    requires StoreReliable(env) && Inv(w) && forall x | x in w.leases :: !Standing(w.leases[x], r)
    ensures Renew(env, w, r, now).1 == NotRenewed
  {
    LookupHit(w.leases, r.target, r.action, r.level);
  }

  /** Past the gates a request with a standing lease renews it; unless its execution parameters changed or
      another lease displaced it, then a new one is granted, or its renewals are used up. */
  lemma AnswersWithStanding(env: Env, w: World, r: Resolution, id: string, now: int, x: string)
    requires Reliable(env) && Inv(w) && Needs(r) && r.active.Some? && id !in w.leases && !Held(env.policy, w.leases, r)
    requires x in w.leases && Standing(w.leases[x], r)
    ensures var (o, l) := (Apply(env, w, r, id, now).1, w.leases[x]);
      o == if ParamsDiffer(l, r) || Displaced(w, l) then Granted(id)
           else if 0 < env.policy.maxRenewals <= l.renewals then RenewalCapped(x) else Renewed(x)
  {
    PastGates(env, w, r);
    var w1 := Gates(env, w, r, r.target).0;
    RenewalDecides(env, w1, r, now, x);
    if ParamsDiffer(w.leases[x], r) || Displaced(w, w.leases[x]) { GrantsUnrenewed(env, w1, r, id, now); }
  }

  /** And without one, a new lease is granted. */
  lemma AnswersWithoutStanding(env: Env, w: World, r: Resolution, id: string, now: int)
    requires Reliable(env) && Inv(w) && Needs(r) && r.active.Some? && id !in w.leases && !Held(env.policy, w.leases, r)
    requires forall x | x in w.leases :: !Standing(w.leases[x], r)
    ensures Apply(env, w, r, id, now).1 == Granted(id)
  {
    PastGates(env, w, r);
    var w1 := Gates(env, w, r, r.target).0;
    NothingStands(env, w1, r, now);
    GrantsUnrenewed(env, w1, r, id, now);
  }

  lemma PastGates(env: Env, w: World, r: Resolution)
    requires StoreReliable(env) && Inv(w) && !Held(env.policy, w.leases, r)
    ensures var (w1, g) := Gates(env, w, r, r.target);
      g == Open && Inv(w1) && OnlyReads(w, w1)
  {
    GatesIff(env, w, r);
    MissesIff(env.policy, w.leases, r);
    OutrankedIff(w.leases, r);
    GatesRead(env, w, r, r.target);
    OnlyReadsKeeps(w, Gates(env, w, r, r.target).0);
  }

  lemma GrantsUnrenewed(env: Env, w: World, r: Resolution, id: string, now: int)
    requires Reliable(env) && Inv(w) && id !in w.leases && r.active.Some? && Renew(env, w, r, now).1 == NotRenewed
    ensures Grant(env, Renew(env, w, r, now).0, r, id, now).1 == Granted(id)
  {
    RenewKeeps(env, w, r, now);
    GrantEffect(env, Renew(env, w, r, now).0, r, id, now);
  }

  // ---------------------------------------------------------------- which leases a grant retires

  /** What a grant of the request makes of another lease. */
  ghost function AfterGrant(w: World, r: Resolution, l: Lease): Status {
    if Standing(l, r) then (if ParamsDiffer(l, r) then Superseded else Conflict)
    else if ActiveWith(l, r.target, l.action) && (Ordered(l.action) || (l.action == r.action && r.action != NoAction))
            && Rank(l.action, l.level) < Rank(r.action, r.level) then Superseded
    else l.status
  }

  /** When no call fails, a grant retires the standing lease and the weaker ones on its target, and no other. */
  lemma GrantRetires(env: Env, w: World, r: Resolution, id: string, now: int, y: string)
    requires Reliable(env) && Inv(w) && Needs(r) && id !in w.leases && y in w.leases
    requires Apply(env, w, r, id, now).1 == Granted(id)
    ensures var w' := Apply(env, w, r, id, now).0;
      y in w'.leases && w'.leases[y].status == AfterGrant(w, r, w.leases[y])
  {
    GrantedMeans(env, w, r, id, now, id);
    GatesRead(env, w, r, r.target);
    var w1 := Gates(env, w, r, r.target).0;
    OnlyReadsKeeps(w, w1);
    RenewKeeps(env, w1, r, now);
    RenewRetires(env, w1, r, now, y);
    var w2 := Renew(env, w1, r, now).0;
    GrantEffect(env, w2, r, id, now);
    RetiredIff(w2.leases[y], NewLease(r, id, now), r);
  }

  lemma RenewRetires(env: Env, w: World, r: Resolution, now: int, y: string)
    requires Reliable(env) && Inv(w) && y in w.leases && Renew(env, w, r, now).1 == NotRenewed
    ensures var (w', l) := (Renew(env, w, r, now).0, w.leases[y]);
      y in w'.leases && w'.leases[y] == l.(status := if !Standing(l, r) then l.status
                                                     else if ParamsDiffer(l, r) then Superseded else Conflict)
  {
    LookupHit(w.leases, r.target, r.action, r.level);
    var (w1, f) := FindActive(env, w, r.target, r.action, r.level);
    if Standing(w.leases[y], r) {
      assert IsActive(w.leases[y], r.target, r.action, r.level);
      ParamsDifferIff(w.leases[y], r);
    } else if f.Hit? {
      ParamsDifferIff(f.lease, r);
    }
  }

  lemma RetiredIff(l: Lease, lease: Lease, r: Resolution)
    requires l.id != lease.id && !Standing(l, r)
    requires (lease.target, lease.action, lease.level) == (r.target, r.action, r.level)
    ensures AfterSupersede(l, lease, RetirePairs(lease)).status ==
      if ActiveWith(l, r.target, l.action) && (Ordered(l.action) || (l.action == r.action && r.action != NoAction))
         && Rank(l.action, l.level) < Rank(r.action, r.level) then Superseded else l.status
  {
    ScannedIff(r.action, l.action, l.level);
    StrengthIsRank(r.action, r.level);
    StrengthIsRank(l.action, l.level);
  }

  // ---------------------------------------------------------------- a grant that fails

  /** When the PEP cannot serve a grant, its journaled lease is marked failed and nothing is enforced. */
  lemma FailedGrant(env: Env, w: World, r: Resolution, id: string, now: int)
    requires StoreReliable(env) && Inv(w) && id !in w.leases
    requires forall j | j in w.leases :: !Standing(w.leases[j], r)
    requires env.pepFails(w.pepCalls) || r.active.None?
    ensures var (w', o) := Grant(env, w, r, id, now);
      && o == Error && w'.tokens == w.tokens && w'.enforced == w.enforced && w'.log == w.log
      && w'.leases.Keys == w.leases.Keys + {id} && (forall y | y in w.leases :: w'.leases[y] == w.leases[y])
      && w'.leases[id].status == Failed && w'.leases[id].id == id && w'.leases[id].target == r.target
  {
  }

  // ---------------------------------------------------------------- one revert

  /** A revert asks the PEP for the current token. Without an answer the lease is failed; a foreign token makes
      it a conflict; otherwise the PEP is told to lift what the lease decodes to, and the lease is reverted, or
      failed if the PEP fails or nothing is decoded. Its token is forgotten only by a revert that worked. */
  lemma RevertMeans(env: Env, w: World, lease: Lease)
    requires lease.id in w.leases
    ensures
      var (w', ok) := Revert(env, w, lease);
      var (answered, displaced) := (!env.pepFails(w.pepCalls), Displaced(w, lease));
      var lifted := env.names(lease.target, lease.metadata);
      var worked := !env.pepFails(w.pepCalls + 1) && lifted.Some?;
      var status := if !answered then Failed else if displaced then Conflict else if worked then Reverted else Failed;
      && (if env.storeFails(w.storeCalls) then w'.leases == w.leases && !ok
          else w'.leases == w.leases[lease.id := w.leases[lease.id].(status := status)] && (ok <==> status != Failed))
      && (if answered && !displaced then w'.log == w.log + [RevertCalled(lease.target, lease.id, worked)]
          else w'.log == w.log)
      && (if answered && !displaced && worked then
            w'.enforced == w.enforced - {lifted.value} && w'.tokens == w.tokens - {lease.target}
          else w'.enforced == w.enforced && w'.tokens == w.tokens)
  {
  }

  // ---------------------------------------------------------------- sweeps, when no call fails

  /** Rows of the list, each once. */
  ghost predicate ListedOnce(w: World, leases: seq<Lease>) {
    && (forall i | 0 <= i < |leases| :: leases[i].id in w.leases && w.leases[leases[i].id] == leases[i])
    && (forall i, j | 0 <= i < j < |leases| :: leases[i].id != leases[j].id)
  }

  /** Another lease holds the target, and the sweep has not come to it before. */
  ghost predicate Outlived(w: World, leases: seq<Lease>, i: nat)
    requires i < |leases|
  {
    Displaced(w, leases[i]) && forall k | 0 <= k < i :: leases[k].id != w.tokens[leases[i].target].leaseId
  }

  lemma RevertsRow(env: Env, w: World, lease: Lease)
    requires Reliable(env) && Inv(w) && lease.id in w.leases && w.leases[lease.id] == lease && Decodes(env, lease)
    ensures var (w', ok) := Revert(env, w, lease);
      && ok && Inv(w')
      && w'.leases == w.leases[lease.id := lease.(status := if Displaced(w, lease) then Conflict else Reverted)]
      && w'.tokens == if Displaced(w, lease) then w.tokens else w.tokens - {lease.target}
  {
    RevertMeans(env, w, lease);
    RevertKeeps(env, w, lease);
  }

  ghost predicate EachDecodes(env: Env, leases: seq<Lease>) {
    forall j | 0 <= j < |leases| :: Decodes(env, leases[j])
  }

  /** What the sweep makes of a listed lease. */
  ghost function Swept(w: World, leases: seq<Lease>, i: nat): Lease
    requires i < |leases|
  {
    leases[i].(status := if Outlived(w, leases, i) then Conflict else Reverted)
  }

  /** One revert of a listed lease, when no call fails. */
  ghost predicate Reverts(w: World, w': World, l: Lease) {
    && Inv(w) && Inv(w') && l.id in w.leases && w.leases[l.id] == l
    && w'.leases == w.leases[l.id := l.(status := if Displaced(w, l) then Conflict else Reverted)]
    && w'.tokens == if Displaced(w, l) then w.tokens else w.tokens - {l.target}
  }

  /** The worlds a sweep passes through. */
  ghost predicate Sweeps(ws: seq<World>, w: World, leases: seq<Lease>) {
    && |ws| == |leases| + 1 && ws[0] == w
    && forall i | 0 <= i < |leases| :: Reverts(ws[i], ws[i + 1], leases[i])
  }

  lemma ListedLater(w: World, w1: World, leases: seq<Lease>)
    requires leases != [] && ListedOnce(w, leases) && Reverts(w, w1, leases[0])
    ensures ListedOnce(w1, leases[1..])
  {
    forall i | 0 <= i < |leases[1..]|
      ensures leases[1..][i].id in w1.leases && w1.leases[leases[1..][i].id] == leases[1..][i]
    {
      assert leases[1..][i] == leases[i + 1] && leases[0].id != leases[i + 1].id;
    }
  }

  lemma SweepsFrom(ws: seq<World>, w: World, w1: World, leases: seq<Lease>)
    requires leases != [] && Reverts(w, w1, leases[0]) && Sweeps(ws, w1, leases[1..])
    ensures Sweeps([w] + ws, w, leases)
  {
    var all := [w] + ws;
    forall i | 0 <= i < |leases| ensures Reverts(all[i], all[i + 1], leases[i]) {
      if i > 0 { assert Reverts(ws[i - 1], ws[i], leases[1..][i - 1]); }
    }
  }

  lemma SweepStep(env: Env, w: World, leases: seq<Lease>) returns (w1: World)
    requires Reliable(env) && Inv(w) && ListedOnce(w, leases) && EachDecodes(env, leases) && leases != []
    ensures Reverts(w, w1, leases[0]) && ListedOnce(w1, leases[1..]) && EachDecodes(env, leases[1..])
    ensures RevertAll(env, w, leases).0 == RevertAll(env, w1, leases[1..]).0
  {
    RevertsRow(env, w, leases[0]);
    w1 := Revert(env, w, leases[0]).0;
    ListedLater(w, w1, leases);
    forall j | 0 <= j < |leases[1..]| ensures Decodes(env, leases[1..][j]) { assert leases[1..][j] == leases[j + 1]; }
  }

  lemma {:induction false} SweepTrace(env: Env, w: World, leases: seq<Lease>) returns (ws: seq<World>)
    requires Reliable(env) && Inv(w) && ListedOnce(w, leases) && EachDecodes(env, leases)
    ensures Sweeps(ws, w, leases) && ws[|leases|] == RevertAll(env, w, leases).0
    decreases |leases|
  {
    if leases == [] {
      ws := [w];
    } else {
      var w1 := SweepStep(env, w, leases);
      var rest := SweepTrace(env, w1, leases[1..]);
      SweepsFrom(rest, w, w1, leases);
      ws := [w] + rest;
    }
  }

  /** Each revert so far has taken the token of its lease away, if that was the current one. */
  lemma {:induction false} TokensAt(ws: seq<World>, w: World, leases: seq<Lease>, i: nat, t: string)
    requires Sweeps(ws, w, leases) && i <= |leases|
    ensures t in ws[i].tokens <==> t in w.tokens && forall k | 0 <= k < i :: leases[k].id != w.tokens[t].leaseId
    ensures t in ws[i].tokens ==> ws[i].tokens[t] == w.tokens[t]
  {
    if i > 0 {
      TokensAt(ws, w, leases, i - 1, t);
      assert Reverts(ws[i - 1], ws[i], leases[i - 1]);
      TokenTaken(ws[i - 1], ws[i], leases[i - 1], t);
    }
  }

  lemma TokenTaken(w: World, w': World, l: Lease, t: string)
    requires Reverts(w, w', l)
    ensures t in w'.tokens <==> t in w.tokens && w.tokens[t].leaseId != l.id
    ensures t in w'.tokens ==> w'.tokens[t] == w.tokens[t]
  {
    if t in w.tokens { TokenRow(w, t); }
    if l.target in w.tokens { TokenRow(w, l.target); }
  }

  lemma OutlivedAt(ws: seq<World>, w: World, leases: seq<Lease>, i: nat)
    requires Sweeps(ws, w, leases) && i < |leases|
    ensures Displaced(ws[i], leases[i]) <==> Outlived(w, leases, i)
  {
    TokensAt(ws, w, leases, i, leases[i].target);
  }

  lemma {:induction false} SweptRowAt(ws: seq<World>, w: World, leases: seq<Lease>, i: nat, j: nat)
    requires Sweeps(ws, w, leases) && ListedOnce(w, leases) && j < i <= |leases|
    ensures leases[j].id in ws[i].leases && ws[i].leases[leases[j].id] == Swept(w, leases, j)
  {
    assert Reverts(ws[i - 1], ws[i], leases[i - 1]);
    if j < i - 1 { SweptRowAt(ws, w, leases, i - 1, j); } else { OutlivedAt(ws, w, leases, j); }
  }

  lemma RevertsEach(env: Env, w: World, leases: seq<Lease>, i: nat)
    requires Reliable(env) && Inv(w) && ListedOnce(w, leases) && EachDecodes(env, leases) && i < |leases|
    ensures var w' := RevertAll(env, w, leases).0;
      leases[i].id in w'.leases && w'.leases[leases[i].id] == Swept(w, leases, i)
  {
    var ws := SweepTrace(env, w, leases);
    SweptRowAt(ws, w, leases, |leases|, i);
  }

  lemma SweepReads(env: Env, w: World, listed: seq<Lease>, now: int)
    requires Reliable(env) && Inv(w) && AllDecode(env, w.leases) && Lists(w.leases, listed, Active, Some(now))
    ensures var w1 := w.(storeCalls := w.storeCalls + 1);
      && Inv(w1) && ListedOnce(w1, listed) && RevertExpired(env, w, listed).0 == RevertAll(env, w1, listed).0
      && EachDecodes(env, listed)
  {
    OnlyReadsKeeps(w, w.(storeCalls := w.storeCalls + 1));
    ExpireIsSweep(env, w, listed);
    forall i | 0 <= i < |listed| ensures Decodes(env, listed[i]) { assert listed[i].id in w.leases; }
  }

  lemma SameOutlived(w: World, w1: World, leases: seq<Lease>, i: nat)
    requires i < |leases| && w1.tokens == w.tokens
    ensures Swept(w1, leases, i) == Swept(w, leases, i)
  {
  }

  /** After a sweep every expired active lease is reverted, or a conflict if its target is held by another lease
      that the sweep has not reverted before; every other lease is as it was. */
  lemma SweepMeans(env: Env, w: World, listed: seq<Lease>, now: int, id: string)
    requires Reliable(env) && Inv(w) && AllDecode(env, w.leases) && Lists(w.leases, listed, Active, Some(now))
    requires id in w.leases
    ensures var (w', l) := (RevertExpired(env, w, listed).0, w.leases[id]);
      && id in w'.leases
      && (if l.status == Active && l.expiresAt <= now then
            exists i :: 0 <= i < |listed| && listed[i].id == id
              && w'.leases[id] == l.(status := if Outlived(w, listed, i) then Conflict else Reverted)
          else w'.leases[id] == l)
  {
    var (w1, l) := (w.(storeCalls := w.storeCalls + 1), w.leases[id]);
    SweepReads(env, w, listed, now);
    if l.status == Active && l.expiresAt <= now {
      assert Selected(l, Active, Some(now));
      var i :| 0 <= i < |listed| && listed[i].id == id;
      RevertsEach(env, w1, listed, i);
      SameOutlived(w, w1, listed, i);
    } else {
      forall i | 0 <= i < |listed| ensures listed[i].id != id { assert Selected(listed[i], Active, Some(now)); }
      RevertAllElsewhere(env, w1, listed, id);
    }
  }

  lemma {:induction false} FailsEach(env: Env, w: World, leases: seq<Lease>, id: string)
    requires StoreReliable(env) && id in w.leases && forall i | 0 <= i < |leases| :: leases[i].id in w.leases
    ensures var (w', ok) := FailAll(env, w, leases);
      && ok && id in w'.leases
      && w'.leases[id] == if exists i :: 0 <= i < |leases| && leases[i].id == id
                          then w.leases[id].(status := Failed) else w.leases[id]
    decreases |leases|
  {
    if leases != [] {
      var (rest, w1) := (leases[1..], UpdateStatus(env, w, leases[0].id, Failed).0);
      forall i | 0 <= i < |rest| ensures rest[i].id in w1.leases { assert rest[i] == leases[i + 1]; }
      FailsEach(env, w1, rest, id);
      if i :| 0 <= i < |rest| && rest[i].id == id { assert leases[i + 1].id == id; }
      if i :| 0 <= i < |leases| && leases[i].id == id {
        if i > 0 { assert rest[i - 1].id == id; }
      }
    }
  }

  /** Reconciliation fails every pending lease and touches nothing else. */
  lemma ReconcileMeans(env: Env, w: World, listed: seq<Lease>, id: string)
    requires StoreReliable(env) && Lists(w.leases, listed, Pending, None) && id in w.leases
    ensures var (w', l) := (ReconcilePending(env, w, listed).0, w.leases[id]);
      && id in w'.leases && w'.leases[id] == (if l.status == Pending then l.(status := Failed) else l)
  {
    var w1 := w.(storeCalls := w.storeCalls + 1);
    FailsEach(env, w1, listed, id);
    ExpireIsSweep(env, w, listed);
    if w.leases[id].status == Pending {
      assert Selected(w.leases[id], Pending, None);
      var i :| 0 <= i < |listed| && listed[i].id == id;
    } else {
      forall i | 0 <= i < |listed| ensures listed[i].id != id { assert Selected(listed[i], Pending, None); }
    }
  }

  // ---------------------------------------------------------------- lookups

  /** What a lookup finds is the newest match: by expiry, then application time, then identifier. */
  lemma LookupIsNewest(leases: map<string, Lease>, target: string, action: Action, level: Level, id: string)
    requires RowsOk(leases) && id in leases && leases[id].status == Active
    requires (leases[id].target, leases[id].action, leases[id].level) == (target, action, level)
    ensures var f := Lookup3(leases, target, action, level);
      && f.Hit? && f.lease.status == Active && f.lease.id in leases && leases[f.lease.id] == f.lease
      && (f.lease.target, f.lease.action, f.lease.level) == (target, action, level)
      && var (l, n) := (leases[id], f.lease);
      || l.expiresAt < n.expiresAt
      || (l.expiresAt == n.expiresAt && l.appliedAt < n.appliedAt)
      || (l.expiresAt == n.expiresAt && l.appliedAt == n.appliedAt && (id == n.id || Less(id, n.id)))
  {
    LookupHit(leases, target, action, level);
    var ids := ActiveIds(leases, target, action, level);
    assert id in ids && IsNewest(leases, ids, Newest(leases, ids));
  }
}
