/** When the broker skips an apply, with a store that answers. */
module BrokerGates {
  import opened LeaseJournal
  import opened BrokerInvariants
  import opened BrokerCoverage
  import opened BrokerRows

  ghost predicate ActiveAt(leases: map<string, Lease>, target: string, action: Action, level: Level) {
    exists id :: id in leases && IsActive(leases[id], target, action, level)
  }

  ghost predicate ActiveAmong(leases: map<string, Lease>, target: string, action: Action, levels: seq<Level>) {
    exists level :: level in levels && ActiveAt(leases, target, action, level)
  }

  lemma FoundIff(env: Env, w: World, target: string, action: Action, level: Level)
    requires StoreReliable(env) && RowsOk(w.leases)
    ensures var f := FindActive(env, w, target, action, level).1;
      !f.FindError? && (f.Hit? <==> ActiveAt(w.leases, target, action, level))
  {
    LookupHit(w.leases, target, action, level);
  }

  lemma {:induction false} HasActiveIff(env: Env, w: World, target: string, action: Action, levels: seq<Level>)
    requires StoreReliable(env) && RowsOk(w.leases)
    ensures HasActive(env, w, target, action, levels).1 == if ActiveAmong(w.leases, target, action, levels) then Open
      else Closed
    decreases |levels|
  {
    if levels != [] {
      FoundIff(env, w, target, action, levels[0]);
      var (w1, f) := FindActive(env, w, target, action, levels[0]);
      HasActiveIff(env, w1, target, action, levels[1..]);
      assert forall l :: l in levels <==> l == levels[0] || l in levels[1..];
    }
  }

  /** The action needs another one to be active first, and it is not. */
  ghost predicate Misses(a: Allowance, leases: map<string, Lease>, target: string, action: Action) {
    a.action == action && a.requiresPrevious != NoAction && !ActiveAmong(leases, target, a.requiresPrevious, RISING)
  }

  ghost predicate MissesAny(allowances: seq<Allowance>, leases: map<string, Lease>, target: string, action: Action) {
    exists a :: a in allowances && Misses(a, leases, target, action)
  }

  lemma {:induction false} PrerequisitesIff(env: Env, w: World, action: Action, target: string,
      allowances: seq<Allowance>)
    requires StoreReliable(env) && RowsOk(w.leases)
    ensures Prerequisites(env, w, action, target, allowances).1 == if MissesAny(allowances, w.leases, target, action)
      then Closed else Open
    decreases |allowances|
  {
    if allowances != [] {
      var (a, rest) := (allowances[0], allowances[1..]);
      assert forall x :: x in allowances <==> x == a || x in rest;
      assert MissesAny(allowances, w.leases, target, action)
        <==> Misses(a, w.leases, target, action) || MissesAny(rest, w.leases, target, action);
      if a.action != action || a.requiresPrevious == NoAction {
        PrerequisitesIff(env, w, action, target, rest);
      } else {
        HasActiveIff(env, w, target, a.requiresPrevious, RISING);
        HasActiveReads(env, w, target, a.requiresPrevious, RISING);
        PrerequisitesIff(env, HasActive(env, w, target, a.requiresPrevious, RISING).0, action, target, rest);
      }
    }
  }

  /** An active lease the strength scan can see is stronger than `bound`. */
  ghost predicate StrongerAmong(leases: map<string, Lease>, target: string, pairs: seq<Pair>, bound: nat) {
    exists p :: p in pairs && ActiveAt(leases, target, p.0, p.1) && Strength(p.0, p.1) > bound
  }

  lemma {:induction false} StrongestIff(env: Env, w: World, target: string, pairs: seq<Pair>, weight: nat, bound: nat)
    requires StoreReliable(env) && RowsOk(w.leases)
    ensures var s := Strongest(env, w, target, pairs, weight).1;
      s.Scanned? && (s.weight > bound <==> weight > bound || StrongerAmong(w.leases, target, pairs, bound))
    decreases |pairs|
  {
    if pairs != [] {
      var (p, rest) := (pairs[0], pairs[1..]);
      FoundIff(env, w, target, p.0, p.1);
      LookupHit(w.leases, target, p.0, p.1);
      var (w1, f) := FindActive(env, w, target, p.0, p.1);
      var s := if f.Hit? then Strength(f.lease.action, f.lease.level) else 0;
      StrongestIff(env, w1, target, rest, if s > weight then s else weight, bound);
      assert forall x :: x in pairs <==> x == p || x in rest;
      assert StrongerAmong(w.leases, target, pairs, bound) <==>
        (ActiveAt(w.leases, target, p.0, p.1) && Strength(p.0, p.1) > bound)
          || StrongerAmong(w.leases, target, rest, bound);
    }
  }

  /** A stronger lease on the resolution's target is active, under its own action or a known one. */
  ghost predicate Outranked(leases: map<string, Lease>, r: Resolution) {
    Strength(r.action, r.level) > 0
    && StrongerAmong(leases, r.target, Pairs(ActionsWithRequested(r.action), FALLING), Strength(r.action, r.level))
  }

  lemma NoStrongerIff(env: Env, w: World, r: Resolution)
    requires StoreReliable(env) && RowsOk(w.leases)
    ensures NoStronger(env, w, r, r.target).1 == if Outranked(w.leases, r) then Closed else Open
  {
    if Strength(r.action, r.level) > 0 {
      ScanAnswers(env, w, r.target, Pairs(ActionsWithRequested(r.action), FALLING), Strength(r.action, r.level));
    }
  }

  /** The gate's reading of a whole scan. */
  lemma ScanAnswers(env: Env, w: World, target: string, pairs: seq<Pair>, bound: nat)
    requires StoreReliable(env) && RowsOk(w.leases)
    ensures var s := Strongest(env, w, target, pairs, 0).1;
      (if s.ScanError? then GateError else if s.weight > bound then Closed else Open)
        == if StrongerAmong(w.leases, target, pairs, bound) then Closed else Open
  {
    StrongestIff(env, w, target, pairs, 0, bound);
  }

  lemma GatesIff(env: Env, w: World, r: Resolution)
    requires StoreReliable(env) && RowsOk(w.leases)
    ensures Gates(env, w, r, r.target).1
      == if MissesAny(env.policy.allowances, w.leases, r.target, r.action) || Outranked(w.leases, r) then Closed
         else Open
  {
    PrerequisitesIff(env, w, r.action, r.target, env.policy.allowances);
    PrerequisitesRead(env, w, r.action, r.target, env.policy.allowances);
    NoStrongerIff(env, Prerequisites(env, w, r.action, r.target, env.policy.allowances).0, r);
  }

  /** With a store that answers, an apply that needs a lease is skipped exactly when an action it requires is
      not active or a stronger lease is; otherwise it renews or grants. */
  lemma SkippedIff(env: Env, w: World, r: Resolution, id: string, now: int)
    requires StoreReliable(env) && Inv(w) && NeedsLease(r) && id !in w.leases
    ensures Apply(env, w, r, id, now).1 == Skipped
        <==> MissesAny(env.policy.allowances, w.leases, r.target, r.action) || Outranked(w.leases, r)
  {
    GatesIff(env, w, r);
    GatesRead(env, w, r, r.target);
    var (w1, g) := Gates(env, w, r, r.target);
    if g == Open { OpenNeverSkips(env, w, w1, r, id, now); }
  }

  lemma OpenNeverSkips(env: Env, w: World, w1: World, r: Resolution, id: string, now: int)
    requires Inv(w) && OnlyReads(w, w1) && NeedsLease(r) && Gates(env, w, r, r.target) == (w1, Open)
    ensures Apply(env, w, r, id, now).1 != Skipped
  {
    OnlyReadsKeeps(w, w1);
    RenewAnswers(env, w1, r, now);
    GrantNeverSkips(env, Renew(env, w1, r, now).0, r, id, now);
  }

  lemma GrantNeverSkips(env: Env, w: World, r: Resolution, id: string, now: int)
    ensures Grant(env, w, r, id, now).1 != Skipped
  {
  }
}
