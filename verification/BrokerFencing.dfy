/** Fencing read off the history: every PEP revert of every run, those inside a sweep included. */
module BrokerFencing {
  import opened Text
  import opened LeaseJournal
  import opened BrokerInvariants

  /** When the i-th event reverts a lease, no other lease is in force on its target. */
  ghost predicate FencedAt(log: seq<PepEvent>, i: nat)
    requires i < |log|
  {
    log[i].RevertCalled? ==> Holder(log[..i], log[i].target) in {None, Some(log[i].leaseId)}
  }

  ghost predicate LogFenced(log: seq<PepEvent>) {
    forall i | 0 <= i < |log| :: FencedAt(log, i)
  }

  lemma FencedAppend(log: seq<PepEvent>, e: PepEvent)
    requires LogFenced(log)
    requires e.RevertCalled? ==> Holder(log, e.target) in {None, Some(e.leaseId)}
    ensures LogFenced(log + [e])
  {
    var all := log + [e];
    forall i | 0 <= i < |all| ensures FencedAt(all, i) {
      assert all[..i] == log[..i];
      if i < |log| { assert FencedAt(log, i); } else { assert log[..i] == log; }
    }
  }

  lemma RevertFenced(env: Env, w: World, lease: Lease)
    requires Inv(w) && CopyOfRow(w, lease) && LogFenced(w.log)
    ensures LogFenced(Revert(env, w, lease).0.log)
  {
    if !env.pepFails(w.pepCalls) {
      RevertIsFenced(env, w, lease);
      if Holder(w.log, lease.target) in {None, Some(lease.id)} {
        FencedAppend(w.log, RevertCalled(lease.target, lease.id, RevertWorks(env, w.pepCalls + 1, lease)));
      }
    }
  }

  lemma {:induction false} RevertAllFenced(env: Env, w: World, leases: seq<Lease>)
    requires Inv(w) && LogFenced(w.log) && forall i | 0 <= i < |leases| :: CopyOfRow(w, leases[i])
    ensures LogFenced(RevertAll(env, w, leases).0.log)
    decreases |leases|
  {
    if leases != [] {
      RevertKeeps(env, w, leases[0]);
      RevertFenced(env, w, leases[0]);
      var (w1, ok) := Revert(env, w, leases[0]);
      forall i | 0 <= i < |leases| { RevertKeepsRows(env, w, leases[0], leases[i]); }
      if ok { RevertAllFenced(env, w1, leases[1..]); }
    }
  }

  lemma {:induction false} FailAllLog(env: Env, w: World, leases: seq<Lease>)
    ensures FailAll(env, w, leases).0.log == w.log
    decreases |leases|
  {
    if leases != [] {
      var (w1, ok) := UpdateStatus(env, w, leases[0].id, Failed);
      if ok { FailAllLog(env, w1, leases[1..]); }
    }
  }

  /** An apply enforces once what is active, or nothing. */
  ghost predicate EnforcesOnce(w: World, w': World, r: Resolution, id: string) {
    || (w'.log == w.log && w'.enforced == w.enforced)
    || (r.active.Some? && w'.log == w.log + [Applied(r.target, id)] && w'.enforced == w.enforced + {r.active.value})
  }

  lemma ActivateKeepsLog(env: Env, w: World, lease: Lease)
    requires Inv(w) && lease.id in w.leases && w.leases[lease.id] == lease
    requires forall j | j in w.leases :: !IsActive(w.leases[j], lease.target, lease.action, lease.level)
    ensures var w1 := UpdateStatus(env, w, lease.id, Active).0;
      SupersedeWeaker(env, w1, lease).0.log == w.log && SupersedeWeaker(env, w1, lease).0.enforced == w.enforced
  {
    UpdateStatusKeeps(env, w, lease.id, Active);
    SupersedeKeeps(env, UpdateStatus(env, w, lease.id, Active).0, lease,
      Pairs(ActionsWithRequested(lease.action), RISING));
  }

  lemma GrantEnforces(env: Env, w: World, r: Resolution, id: string, now: int)
    requires Inv(w) && id !in w.leases
    requires forall j | j in w.leases :: !IsActive(w.leases[j], r.target, r.action, r.level)
    ensures EnforcesOnce(w, Grant(env, w, r, id, now).0, r, id)
  {
    var lease := NewLease(r, id, now);
    InsertKeeps(env, w, lease);
    var (w1, stored) := Upsert(env, w, lease);
    if stored { StoredEnforces(env, w1, lease, r.active); }
  }

  lemma StoredEnforces(env: Env, w: World, lease: Lease, active: Option<string>)
    requires Inv(w) && lease.id in w.leases && w.leases[lease.id] == lease && lease.status == Pending
    requires forall j | j in w.leases :: !IsActive(w.leases[j], lease.target, lease.action, lease.level)
    ensures var (w2, applied) := PepApply(env, w, lease, active);
      var w3 := UpdateStatus(env, w2, lease.id, Active).0;
      applied ==>
        && active.Some?
        && SupersedeWeaker(env, w3, lease).0.log == w.log + [Applied(lease.target, lease.id)]
        && SupersedeWeaker(env, w3, lease).0.enforced == w.enforced + {active.value}
  {
    PepApplyKeeps(env, w, lease, active);
    if ApplyWorks(env, w.pepCalls, active) { ActivateKeepsLog(env, PepApply(env, w, lease, active).0, lease); }
  }

  lemma ApplyEnforces(env: Env, w: World, r: Resolution, id: string, now: int)
    requires Inv(w) && id !in w.leases
    ensures EnforcesOnce(w, Apply(env, w, r, id, now).0, r, id)
    ensures !NeedsLease(r) ==> Apply(env, w, r, id, now).0 == w
  {
    if NeedsLease(r) {
      GatesRead(env, w, r, r.target);
      var (w1, g) := Gates(env, w, r, r.target);
      OnlyReadsKeeps(w, w1);
      if g == Open {
        RenewKeeps(env, w1, r, now);
        var (w2, kept) := Renew(env, w1, r, now);
        if kept == NotRenewed { GrantEnforces(env, w2, r, id, now); }
      }
    }
  }

  lemma NextFenced(env: Env, w: World, op: Op)
    requires Inv(w) && Enabled(w, op) && LogFenced(w.log)
    ensures LogFenced(Next(env, w, op).log)
  {
    var w1 := w.(storeCalls := w.storeCalls + 1);
    match op
    case DoApply(r, id, now, policy) =>
      ApplyEnforces(Under(env, policy), w, r, id, now);
      FencedAppend(w.log, Applied(r.target, id));
    case DoExpire(_, listed) =>
      OnlyReadsKeeps(w, w1);
      RevertAllFenced(env, w1, listed);
    case DoReconcile(listed) => FailAllLog(env, w1, listed);
  }

  lemma {:induction false} AlwaysFenced(env: Env, ops: seq<Op>)
    requires IsRun(env, ops)
    ensures LogFenced(After(env, ops).log)
  {
    if ops != [] {
      var before := ops[..|ops| - 1];
      JournalInvariant(env, before);
      AlwaysFenced(env, before);
      NextFenced(env, After(env, before), ops[|ops| - 1]);
    }
  }

  /** Fencing safety over whole histories: whatever calls fail, at every PEP revert of every run, whether at
      the start of a sweep or inside one, no other lease is in force on that target. */
  lemma RevertsNeverUndoNewer(env: Env, ops: seq<Op>, i: nat, newer: string)
    requires IsRun(env, ops) && i < |After(env, ops).log| && After(env, ops).log[i].RevertCalled?
    requires newer != After(env, ops).log[i].leaseId
    ensures var log := After(env, ops).log; !InForce(log[..i], log[i].target, newer)
  {
    var log := After(env, ops).log;
    AlwaysFenced(env, ops);
    assert FencedAt(log, i);
    HolderIsInForce(log[..i], log[i].target, newer);
  }
}
