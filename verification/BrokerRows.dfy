/** Properties of single leases over whole runs, and what the answer of an apply means. */
module BrokerRows {
  import opened LeaseJournal
  import opened BrokerInvariants

  // ---------------------------------------------------------------- properties of every row

  type LeaseProperty = Lease -> bool

  ghost predicate RowsAll(p: LeaseProperty, leases: map<string, Lease>) {
    forall id | id in leases :: p(leases[id])
  }

  ghost predicate IgnoresStatus(p: LeaseProperty) {
    forall l: Lease, s: Status {:trigger p(l.(status := s))} :: p(l) ==> p(l.(status := s))
  }

  predicate Renewable(env: Env, l: Lease, r: Resolution) {
    IsActive(l, r.target, r.action, r.level) && (env.policy.maxRenewals > 0 ==> l.renewals < env.policy.maxRenewals)
  }

  /** The leases a resolution can create or renew have the property. */
  ghost predicate Establishes(p: LeaseProperty, env: Env, r: Resolution) {
    && (forall id, now {:trigger p(NewLease(r, id, now))} :: p(NewLease(r, id, now)))
    && (forall l, now {:trigger p(RenewedLease(l, r, now))} :: p(l) && Renewable(env, l, r) ==>
      p(RenewedLease(l, r, now)))
  }

  lemma StatusRows(p: LeaseProperty, env: Env, w: World, id: string, status: Status)
    requires IgnoresStatus(p) && RowsAll(p, w.leases)
    ensures RowsAll(p, UpdateStatus(env, w, id, status).0.leases)
  {
    if id in w.leases { assert p(w.leases[id].(status := status)); }
  }

  lemma UpsertRows(p: LeaseProperty, env: Env, w: World, lease: Lease)
    requires RowsAll(p, w.leases) && p(lease)
    ensures RowsAll(p, Upsert(env, w, lease).0.leases)
  {
  }

  lemma RenewRows(p: LeaseProperty, env: Env, w: World, r: Resolution, now: int)
    requires IgnoresStatus(p) && Establishes(p, env, r) && Inv(w) && RowsAll(p, w.leases)
    ensures RowsAll(p, Renew(env, w, r, now).0.leases)
  {
    LookupHit(w.leases, r.target, r.action, r.level);
    var (w1, f) := FindActive(env, w, r.target, r.action, r.level);
    if f.Hit? {
      StatusRows(p, env, w1, f.lease.id, Superseded);
      var w2 := CurrentToken(env, w1, f.lease).0;
      StatusRows(p, env, w2, f.lease.id, Conflict);
      if Renewable(env, f.lease, r) {
        assert p(RenewedLease(f.lease, r, now));
        UpsertRows(p, env, w2, RenewedLease(f.lease, r, now));
      }
    }
  }

  lemma {:induction false} SupersedeRows(p: LeaseProperty, env: Env, w: World, applied: Lease, pairs: seq<Pair>)
    requires IgnoresStatus(p) && RowsAll(p, w.leases)
    ensures RowsAll(p, Supersede(env, w, applied, pairs).0.leases)
    decreases |pairs|
  {
    if pairs != [] {
      var (w1, f) := FindActive(env, w, applied.target, pairs[0].0, pairs[0].1);
      SupersedeRows(p, env, w1, applied, pairs[1..]);
      if f.Hit? {
        StatusRows(p, env, w1, f.lease.id, Superseded);
        SupersedeRows(p, env, UpdateStatus(env, w1, f.lease.id, Superseded).0, applied, pairs[1..]);
      }
    }
  }

  lemma GrantRows(p: LeaseProperty, env: Env, w: World, r: Resolution, id: string, now: int)
    requires IgnoresStatus(p) && p(NewLease(r, id, now)) && RowsAll(p, w.leases)
    ensures RowsAll(p, Grant(env, w, r, id, now).0.leases)
  {
    var lease := NewLease(r, id, now);
    UpsertRows(p, env, w, lease);
    var w2 := PepApply(env, Upsert(env, w, lease).0, lease, r.active).0;
    StatusRows(p, env, w2, id, Failed);
    StatusRows(p, env, w2, id, Active);
    SupersedeRows(p, env, UpdateStatus(env, w2, id, Active).0, lease,
      Pairs(ActionsWithRequested(lease.action), RISING));
  }

  lemma ApplyRows(p: LeaseProperty, env: Env, w: World, r: Resolution, id: string, now: int)
    requires IgnoresStatus(p) && Inv(w) && RowsAll(p, w.leases) && (NeedsLease(r) ==> Establishes(p, env, r))
    ensures RowsAll(p, Apply(env, w, r, id, now).0.leases)
  {
    if NeedsLease(r) {
      GatesRead(env, w, r, r.target);
      var (w1, g) := Gates(env, w, r, r.target);
      OnlyReadsKeeps(w, w1);
      if g == Open {
        RenewRows(p, env, w1, r, now);
        var (w2, kept) := Renew(env, w1, r, now);
        if kept == NotRenewed {
          assert p(NewLease(r, id, now));
          GrantRows(p, env, w2, r, id, now);
        }
      }
    }
  }

  lemma RevertRows(p: LeaseProperty, env: Env, w: World, lease: Lease)
    requires IgnoresStatus(p) && RowsAll(p, w.leases)
    ensures RowsAll(p, Revert(env, w, lease).0.leases)
  {
    var (w1, current) := CurrentToken(env, w, lease);
    if current.None? {
      StatusRows(p, env, w1, lease.id, Failed);
    } else if current.value != lease.token {
      StatusRows(p, env, w1, lease.id, Conflict);
    } else {
      var (w2, ok) := PepRevert(env, w1, lease);
      StatusRows(p, env, w2, lease.id, if ok then Reverted else Failed);
    }
  }

  lemma {:induction false} RevertAllRows(p: LeaseProperty, env: Env, w: World, leases: seq<Lease>)
    requires IgnoresStatus(p) && RowsAll(p, w.leases)
    ensures RowsAll(p, RevertAll(env, w, leases).0.leases)
    decreases |leases|
  {
    if leases != [] {
      RevertRows(p, env, w, leases[0]);
      var (w1, ok) := Revert(env, w, leases[0]);
      if ok { RevertAllRows(p, env, w1, leases[1..]); }
    }
  }

  lemma {:induction false} FailAllRows(p: LeaseProperty, env: Env, w: World, leases: seq<Lease>)
    requires IgnoresStatus(p) && RowsAll(p, w.leases)
    ensures RowsAll(p, FailAll(env, w, leases).0.leases)
    decreases |leases|
  {
    if leases != [] {
      StatusRows(p, env, w, leases[0].id, Failed);
      var (w1, ok) := UpdateStatus(env, w, leases[0].id, Failed);
      if ok { FailAllRows(p, env, w1, leases[1..]); }
    }
  }

  lemma NextRows(p: LeaseProperty, env: Env, w: World, op: Op)
    requires IgnoresStatus(p) && Inv(w) && RowsAll(p, w.leases)
    requires op.DoApply? && NeedsLease(op.r) ==> Establishes(p, Under(env, op.policy), op.r)
    ensures RowsAll(p, Next(env, w, op).leases)
  {
    var w1 := w.(storeCalls := w.storeCalls + 1);
    match op
    case DoApply(r, id, now, policy) => ApplyRows(p, Under(env, policy), w, r, id, now);
    case DoExpire(_, listed) => RevertAllRows(p, env, w1, listed);
    case DoReconcile(listed) => FailAllRows(p, env, w1, listed);
  }

  /** What holds of every lease a run's resolutions create or renew holds of every row of every reachable
      journal, whatever calls failed. */
  lemma {:induction false} RowsFromApplies(p: LeaseProperty, env: Env, ops: seq<Op>)
    requires IsRun(env, ops) && IgnoresStatus(p)
    requires forall i | 0 <= i < |ops| && ops[i].DoApply? && NeedsLease(ops[i].r) ::
      Establishes(p, Under(env, ops[i].policy), ops[i].r)
    ensures RowsAll(p, After(env, ops).leases)
  {
    if ops != [] {
      var before := ops[..|ops| - 1];
      JournalInvariant(env, before);
      RowsFromApplies(p, env, before);
      NextRows(p, env, After(env, before), ops[|ops| - 1]);
    }
  }

  // ---------------------------------------------------------------- the answer of an apply

  lemma {:induction false} SupersedeSpares(env: Env, w: World, applied: Lease, pairs: seq<Pair>)
    requires RowsOk(w.leases) && applied.id in w.leases
    ensures var w' := Supersede(env, w, applied, pairs).0;
      applied.id in w'.leases && w'.leases[applied.id] == w.leases[applied.id] && w'.tokens == w.tokens
    decreases |pairs|
  {
    if pairs != [] {
      var (w1, f) := FindActive(env, w, applied.target, pairs[0].0, pairs[0].1);
      SupersedeSpares(env, w1, applied, pairs[1..]);
      if f.Hit? {
        LookupHit(w.leases, applied.target, pairs[0].0, pairs[0].1);
        if f.lease.id != applied.id {
          SupersedeSpares(env, UpdateStatus(env, w1, f.lease.id, Superseded).0, applied, pairs[1..]);
        }
      }
    }
  }

  lemma GrantAnswers(env: Env, w: World, r: Resolution, id: string, now: int)
    requires RowsOk(w.leases)
    ensures var (w', o) := Grant(env, w, r, id, now);
      o == Granted(id) ==>
        && id in w'.leases && w'.leases[id] == NewLease(r, id, now).(status := Active)
        && r.target in w'.tokens && w'.tokens[r.target] == w'.leases[id].token
  {
    var lease := NewLease(r, id, now);
    var (w1, stored) := Upsert(env, w, lease);
    var (w2, applied) := PepApply(env, w1, lease, r.active);
    var (w3, activated) := UpdateStatus(env, w2, id, Active);
    if stored && applied && activated {
      ActivatedIsStored(env, w, r, id, now);
      SupersedeWeakerSpares(env, w3, lease);
    }
  }

  lemma SupersedeWeakerSpares(env: Env, w: World, applied: Lease)
    requires RowsOk(w.leases) && applied.id in w.leases
    ensures var w' := SupersedeWeaker(env, w, applied).0;
      applied.id in w'.leases && w'.leases[applied.id] == w.leases[applied.id] && w'.tokens == w.tokens
  {
    SupersedeSpares(env, w, applied, Pairs(ActionsWithRequested(applied.action), RISING));
  }

  /** A grant up to its activation. */
  lemma ActivatedIsStored(env: Env, w: World, r: Resolution, id: string, now: int)
    requires RowsOk(w.leases)
    requires Upsert(env, w, NewLease(r, id, now)).1
    requires PepApply(env, Upsert(env, w, NewLease(r, id, now)).0, NewLease(r, id, now), r.active).1
    requires UpdateStatus(env, PepApply(env, Upsert(env, w, NewLease(r, id, now)).0, NewLease(r, id, now), r.active).0,
      id, Active).1
    ensures var lease := NewLease(r, id, now);
      var w3 := UpdateStatus(env, PepApply(env, Upsert(env, w, lease).0, lease, r.active).0, id, Active).0;
      && RowsOk(w3.leases) && id in w3.leases && w3.leases[id] == lease.(status := Active)
      && r.target in w3.tokens && w3.tokens[r.target] == lease.token
  {
  }

  lemma RenewAnswers(env: Env, w: World, r: Resolution, now: int)
    requires Inv(w)
    ensures var (w', res) := Renew(env, w, r, now);
      match res
      case Kept(Renewed(x)) =>
        && x in w.leases && IsActive(w.leases[x], r.target, r.action, r.level)
        && w'.leases == w.leases[x := RenewedLease(w.leases[x], r, now)] && w'.tokens == w.tokens && w'.log == w.log
      case Kept(RenewalCapped(x)) =>
        && x in w.leases && IsActive(w.leases[x], r.target, r.action, r.level)
        && 0 < env.policy.maxRenewals <= w.leases[x].renewals && OnlyReads(w, w')
      case Kept(_) => false
      case _ => true
  {
    LookupHit(w.leases, r.target, r.action, r.level);
  }

  /** What an apply in `w` with this answer has done. */
  ghost predicate Means(env: Env, w: World, r: Resolution, id: string, now: int, w': World, o: Outcome) {
    match o
    case Denied => !r.allowed && w' == w
    case NoLease => r.allowed && !NeedsLease(r) && w' == w
    case Skipped => OnlyReads(w, w')
    case Granted(x) =>
      && x == id && id in w'.leases && w'.leases[id] == Lease(
           id, r.decisionId, r.target, r.action, r.level, Active,
           Token(r.target, r.action, r.level, r.decisionId, id), now, now + r.ttl, r.metadata, 0)
      && r.target in w'.tokens && w'.tokens[r.target] == w'.leases[id].token
    case Renewed(x) =>
      && x in w.leases && IsActive(w.leases[x], r.target, r.action, r.level)
      && w'.leases == w.leases[x := w.leases[x].(decisionId := r.decisionId, expiresAt := now + r.ttl,
                                                 metadata := r.metadata, renewals := w.leases[x].renewals + 1)]
      && w'.tokens == w.tokens && w'.log == w.log
    case RenewalCapped(x) =>
      && x in w.leases && IsActive(w.leases[x], r.target, r.action, r.level)
      && 0 < env.policy.maxRenewals <= w.leases[x].renewals && OnlyReads(w, w')
    case Error => true
  }

  lemma OpenAnswers(env: Env, w: World, w1: World, r: Resolution, id: string, now: int)
    requires Inv(w1) && OnlyReads(w, w1) && id !in w1.leases && NeedsLease(r)
    ensures var (w2, kept) := Renew(env, w1, r, now);
      && (kept.Kept? ==> Means(env, w, r, id, now, w2, kept.outcome))
      && (kept == NotRenewed ==> Means(env, w, r, id, now, Grant(env, w2, r, id, now).0, Grant(env, w2, r, id, now).1))
  {
    RenewAnswers(env, w1, r, now);
    RenewKeeps(env, w1, r, now);
    var (w2, kept) := Renew(env, w1, r, now);
    if kept == NotRenewed { GrantMeans(env, w, w2, r, id, now); }
  }

  lemma GrantMeans(env: Env, w: World, w2: World, r: Resolution, id: string, now: int)
    requires RowsOk(w2.leases)
    ensures Means(env, w, r, id, now, Grant(env, w2, r, id, now).0, Grant(env, w2, r, id, now).1)
  {
    GrantAnswers(env, w2, r, id, now);
  }

  /** What each answer means: a granted lease is active until its TTL and its token is the one remembered; a
      renewal extends the active lease of that key without touching the PEP; a capped one, a skip and a
      denial change nothing. */
  lemma ApplyAnswers(env: Env, w: World, r: Resolution, id: string, now: int)
    requires Inv(w) && id !in w.leases
    ensures var (w', o) := Apply(env, w, r, id, now);
      Means(env, w, r, id, now, w', o)
  {
    if NeedsLease(r) {
      GatesRead(env, w, r, r.target);
      var (w1, g) := Gates(env, w, r, r.target);
      OnlyReadsKeeps(w, w1);
      if g == Open { OpenAnswers(env, w, w1, r, id, now); }
    }
  }

  // ---------------------------------------------------------------- renewals

  /** A renewal that does not extend its lease changes no column but the status. */
  lemma RenewOtherwise(p: LeaseProperty, env: Env, w: World, r: Resolution, now: int)
    requires Inv(w) && IgnoresStatus(p) && RowsAll(p, w.leases)
    requires var res := Renew(env, w, r, now).1; !(res.Kept? && res.outcome.Renewed?)
    ensures RowsAll(p, Renew(env, w, r, now).0.leases)
  {
    LookupHit(w.leases, r.target, r.action, r.level);
    var (w1, f) := FindActive(env, w, r.target, r.action, r.level);
    if f.Hit? {
      StatusRows(p, env, w1, f.lease.id, Superseded);
      StatusRows(p, env, CurrentToken(env, w1, f.lease).0, f.lease.id, Conflict);
    }
  }

  /** The renewals of a row of the next journal: none for a new row, else those it had. */
  predicate SameRenewals(leases: map<string, Lease>, l: Lease) {
    l.renewals == if l.id in leases then leases[l.id].renewals else 0
  }

  predicate RenewedOnce(leases: map<string, Lease>, l: Lease, policy: Policy) {
    && l.id in leases && l.renewals == leases[l.id].renewals + 1
    && (policy.maxRenewals > 0 ==> l.renewals <= policy.maxRenewals)
  }

  function Unrenewed(leases: map<string, Lease>): LeaseProperty {
    (l: Lease) => SameRenewals(leases, l)
  }

  lemma StartUnrenewed(leases: map<string, Lease>)
    requires RowsOk(leases)
    ensures IgnoresStatus(Unrenewed(leases)) && RowsAll(Unrenewed(leases), leases)
  {
  }

  lemma RowUnrenewed(leases: map<string, Lease>, next: map<string, Lease>, x: string)
    requires RowsAll(Unrenewed(leases), next) && x in next
    ensures SameRenewals(leases, next[x])
  {
    assert Unrenewed(leases)(next[x]);
  }

  /** What a renewal attempt and the grant after it leave of the renewals, when the lease was not extended. */
  lemma NotExtended(env: Env, w: World, r: Resolution, id: string, now: int)
    requires Inv(w) && id !in w.leases
    requires var res := Renew(env, w, r, now).1; !(res.Kept? && res.outcome.Renewed?)
    ensures var (w2, kept) := Renew(env, w, r, now);
      && RowsAll(Unrenewed(w.leases), w2.leases)
      && (kept == NotRenewed ==> RowsAll(Unrenewed(w.leases), Grant(env, w2, r, id, now).0.leases))
  {
    StartUnrenewed(w.leases);
    RenewOtherwise(Unrenewed(w.leases), env, w, r, now);
    assert Unrenewed(w.leases)(NewLease(r, id, now));
    GrantRows(Unrenewed(w.leases), env, Renew(env, w, r, now).0, r, id, now);
  }

  lemma ExtendedOnce(env: Env, w: World, r: Resolution, now: int, x: string, y: string)
    requires Inv(w) && Renew(env, w, r, now).1 == Kept(Renewed(x)) && y in Renew(env, w, r, now).0.leases
    ensures var l := Renew(env, w, r, now).0.leases[y];
      SameRenewals(w.leases, l) || RenewedOnce(w.leases, l, env.policy)
  {
    RenewAnswers(env, w, r, now);
    RenewedWithinCap(env, w, r, now, x);
  }

  lemma ApplyRenewals(env: Env, w: World, r: Resolution, id: string, now: int, x: string)
    requires Inv(w) && id !in w.leases && x in Apply(env, w, r, id, now).0.leases
    ensures var l := Apply(env, w, r, id, now).0.leases[x];
      SameRenewals(w.leases, l) || RenewedOnce(w.leases, l, env.policy)
  {
    if NeedsLease(r) {
      GatesRead(env, w, r, r.target);
      var (w1, g) := Gates(env, w, r, r.target);
      OnlyReadsKeeps(w, w1);
      if g == Open {
        var (w2, kept) := Renew(env, w1, r, now);
        if kept.Kept? && kept.outcome.Renewed? {
          ExtendedOnce(env, w1, r, now, kept.outcome.id, x);
        } else {
          NotExtended(env, w1, r, id, now);
          RowUnrenewed(w.leases, Apply(env, w, r, id, now).0.leases, x);
        }
      }
    }
  }

  lemma RenewedWithinCap(env: Env, w: World, r: Resolution, now: int, x: string)
    requires Inv(w) && Renew(env, w, r, now).1 == Kept(Renewed(x))
    ensures env.policy.maxRenewals > 0 ==> x in w.leases && w.leases[x].renewals < env.policy.maxRenewals
  {
    LookupHit(w.leases, r.target, r.action, r.level);
  }

  lemma SweepRenewals(env: Env, w: World, op: Op)
    requires Inv(w) && !op.DoApply?
    ensures RowsAll(Unrenewed(w.leases), Next(env, w, op).leases)
  {
    StartUnrenewed(w.leases);
    var w1 := w.(storeCalls := w.storeCalls + 1);
    match op
    case DoExpire(_, listed) => RevertAllRows(Unrenewed(w.leases), env, w1, listed);
    case DoReconcile(listed) => FailAllRows(Unrenewed(w.leases), env, w1, listed);
  }

  /** The autonomy limit, which may change between operations, is the one in force when a renewal happens:
      in any run, one more operation leaves the renewals of every row as they were, or renews it once
      within the limit of that apply. */
  lemma RenewalsCapped(env: Env, ops: seq<Op>, op: Op, x: string)
    requires IsRun(env, ops) && Enabled(After(env, ops), op) && x in Next(env, After(env, ops), op).leases
    ensures var (w, l) := (After(env, ops), Next(env, After(env, ops), op).leases[x]);
      l.id == x && (SameRenewals(w.leases, l) || (op.DoApply? && RenewedOnce(w.leases, l, op.policy)))
  {
    var w := After(env, ops);
    JournalInvariant(env, ops);
    RowsNamed(env, w, op, x);
    if op.DoApply? {
      ApplyRenewals(Under(env, op.policy), w, op.r, op.id, op.now, x);
    } else {
      SweepRenewals(env, w, op);
      RowUnrenewed(w.leases, Next(env, w, op).leases, x);
    }
  }

  lemma RowsNamed(env: Env, w: World, op: Op, x: string)
    requires Inv(w) && Enabled(w, op) && x in Next(env, w, op).leases
    ensures Next(env, w, op).leases[x].id == x
  {
    NextKeeps(env, w, op);
  }
}
