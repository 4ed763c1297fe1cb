/** What every step of the broker keeps, under every pattern of failing store and PEP calls. */
module BrokerInvariants {
  import opened Text
  import opened LeaseJournal

  // ---------------------------------------------------------------- the invariant

  ghost predicate RowsOk(leases: map<string, Lease>) {
    forall id | id in leases ::
      leases[id].id == id && leases[id].token.leaseId == id
  }

  /** At most one active lease per (target, action, level). */
  ghost predicate UniqueActive(leases: map<string, Lease>) {
    forall i, j | i in leases && j in leases && leases[i].status == Active
                  && IsActive(leases[j], leases[i].target, leases[i].action, leases[i].level) :: i == j
  }

  /** The lease whose enforcement the PEP changed last on `t`, unless it was reverted since. */
  function Holder(log: seq<PepEvent>, t: string): Option<string> {
    if log == [] then None
    else
      var before := Holder(log[..|log| - 1], t);
      match log[|log| - 1]
      case Applied(target, id) => if target == t then Some(id) else before
      case RevertCalled(target, id, ok) => if target == t && ok && before == Some(id) then None else before
  }

  /** The PEP remembers a token for exactly the targets with a holder: the holder's token. */
  ghost predicate TokensMatch(w: World) {
    forall t ::
      match Holder(w.log, t)
      case None => t !in w.tokens
      case Some(id) => t in w.tokens && id in w.leases && w.leases[id].target == t && w.tokens[t] == w.leases[id].token
  }

  ghost predicate JournalOk(leases: map<string, Lease>) {
    RowsOk(leases) && UniqueActive(leases)
  }

  ghost predicate Inv(w: World) {
    JournalOk(w.leases) && TokensMatch(w)
  }

  /** Only call counters moved. */
  ghost predicate OnlyReads(w: World, v: World) {
    v.leases == w.leases && v.tokens == w.tokens && v.enforced == w.enforced && v.log == w.log
  }

  lemma OnlyReadsKeeps(w: World, v: World)
    requires Inv(w) && OnlyReads(w, v)
    ensures Inv(v)
  {
  }

  // ---------------------------------------------------------------- in force, independently of the fold

  /** `id` was the latest application on `t` and has not been reverted since. */
  ghost predicate InForceAt(log: seq<PepEvent>, t: string, id: string, i: nat) {
    && i < |log| && log[i] == Applied(t, id)
    && (forall j | i < j < |log| :: !(log[j].Applied? && log[j].target == t))
    && (forall j | i < j < |log| :: log[j] != RevertCalled(t, id, true))
  }

  ghost predicate InForce(log: seq<PepEvent>, t: string, id: string) {
    exists i: nat :: InForceAt(log, t, id, i)
  }

  lemma {:induction false} HolderIsInForce(log: seq<PepEvent>, t: string, id: string)
    ensures Holder(log, t) == Some(id) <==> InForce(log, t, id)
  {
    if log != [] {
      var n := |log| - 1;
      var init := log[..n];
      HolderIsInForce(init, t, id);
      if Holder(log, t) == Some(id) {
        if log[n] == Applied(t, id) {
          assert InForceAt(log, t, id, n);
        } else {
          var i: nat :| InForceAt(init, t, id, i);
          assert InForceAt(log, t, id, i);
        }
      }
      if InForce(log, t, id) {
        var i: nat :| InForceAt(log, t, id, i);
        if i < n {
          assert log[n] == log[n];
          assert InForceAt(init, t, id, i);
        }
      }
    }
  }

  // ---------------------------------------------------------------- reads

  lemma LookupHit(leases: map<string, Lease>, target: string, action: Action, level: Level)
    requires RowsOk(leases)
    ensures
      match Lookup3(leases, target, action, level)
      case FindError => false
      case Missing => forall id | id in leases :: !IsActive(leases[id], target, action, level)
      case Hit(l) => l.id in leases && leases[l.id] == l && IsActive(l, target, action, level)
  {
    var ids := ActiveIds(leases, target, action, level);
    if ids == {} {
      assert forall id | id in leases && IsActive(leases[id], target, action, level) :: id in ids;
    }
  }

  lemma {:induction false} HasActiveReads(env: Env, w: World, target: string, action: Action, levels: seq<Level>)
    ensures OnlyReads(w, HasActive(env, w, target, action, levels).0)
    decreases |levels|
  {
    if levels != [] {
      HasActiveReads(env, FindActive(env, w, target, action, levels[0]).0, target, action, levels[1..]);
    }
  }

  lemma {:induction false} PrerequisitesRead(env: Env, w: World, action: Action, target: string,
      allowances: seq<Allowance>)
    ensures OnlyReads(w, Prerequisites(env, w, action, target, allowances).0)
    decreases |allowances|
  {
    if allowances != [] {
      var a := allowances[0];
      PrerequisitesRead(env, w, action, target, allowances[1..]);
      HasActiveReads(env, w, target, a.requiresPrevious, RISING);
      PrerequisitesRead(env, HasActive(env, w, target, a.requiresPrevious, RISING).0, action, target, allowances[1..]);
    }
  }

  lemma {:induction false} StrongestReads(env: Env, w: World, target: string, pairs: seq<Pair>, weight: nat)
    ensures OnlyReads(w, Strongest(env, w, target, pairs, weight).0)
    decreases |pairs|
  {
    if pairs != [] {
      var (w1, f) := FindActive(env, w, target, pairs[0].0, pairs[0].1);
      match f
      case FindError =>
      case Missing => StrongestReads(env, w1, target, pairs[1..], weight);
      case Hit(l) =>
        StrongestReads(env, w1, target, pairs[1..], if Strength(l.action, l.level) > weight
          then Strength(l.action, l.level) else weight);
    }
  }

  // ---------------------------------------------------------------- single writes

  lemma StatusKeepsJournal(leases: map<string, Lease>, id: string, status: Status)
    requires JournalOk(leases) && id in leases
    requires status == Active ==>
               forall j | j in leases && IsActive(leases[j], leases[id].target, leases[id].action, leases[id].level) ::
                 j == id
    ensures JournalOk(leases[id := leases[id].(status := status)])
  {
  }

  lemma UpdateStatusKeeps(env: Env, w: World, id: string, status: Status)
    requires Inv(w)
    requires status == Active && id in w.leases ==>
               forall j | j in w.leases && IsActive(w.leases[j], w.leases[id].target, w.leases[id].action,
                 w.leases[id].level) :: j == id
    ensures Inv(UpdateStatus(env, w, id, status).0)
  {
    if id in w.leases { StatusKeepsJournal(w.leases, id, status); }
  }

  lemma InsertKeeps(env: Env, w: World, lease: Lease)
    requires Inv(w) && lease.id !in w.leases && lease.status == Pending
    requires lease.token.leaseId == lease.id
    ensures Inv(Upsert(env, w, lease).0)
  {
  }

  /** The same active lease with other columns. */
  predicate SameKey(row: Lease, lease: Lease) {
    && row.status == Active == lease.status && row.target == lease.target && row.action == lease.action
    && row.level == lease.level && row.token == lease.token
  }

  lemma ReplaceKeepsJournal(leases: map<string, Lease>, lease: Lease)
    requires JournalOk(leases) && lease.id in leases && SameKey(leases[lease.id], lease)
    ensures JournalOk(leases[lease.id := lease])
  {
  }

  lemma TokensStillMatch(w: World, v: World)
    requires TokensMatch(w) && v.tokens == w.tokens && v.log == w.log
    requires forall id | id in w.leases ::
      id in v.leases && v.leases[id].target == w.leases[id].target && v.leases[id].token == w.leases[id].token
    ensures TokensMatch(v)
  {
  }

  lemma ReplaceKeeps(env: Env, w: World, lease: Lease)
    requires Inv(w) && lease.id in w.leases && SameKey(w.leases[lease.id], lease)
    ensures Inv(Upsert(env, w, lease).0)
  {
    ReplaceKeepsJournal(w.leases, lease);
    TokensStillMatch(w, Upsert(env, w, lease).0);
  }

  lemma HolderAppend(log: seq<PepEvent>, e: PepEvent, t: string)
    ensures Holder(log + [e], t) ==
            match e
            case Applied(target, id) => if target == t then Some(id) else Holder(log, t)
            case RevertCalled(target, id, ok) => if target == t && ok && Holder(log, t) == Some(id) then None
              else Holder(log, t)
  {
    assert (log + [e])[..|log + [e]| - 1] == log;
  }

  /** `lease` is a possibly outdated copy of its row: only the status may differ. */
  predicate CopyOfRow(w: World, lease: Lease) {
    lease.id in w.leases && w.leases[lease.id] == lease.(status := w.leases[lease.id].status)
  }

  lemma PepApplyKeeps(env: Env, w: World, lease: Lease, active: Option<string>)
    requires Inv(w) && CopyOfRow(w, lease)
    ensures Inv(PepApply(env, w, lease, active).0)
  {
    forall t { HolderAppend(w.log, Applied(lease.target, lease.id), t); }
  }

  lemma PepRevertKeeps(env: Env, w: World, lease: Lease)
    requires Inv(w) && CopyOfRow(w, lease)
    ensures Inv(PepRevert(env, w, lease).0)
  {
    var ok := RevertWorks(env, w.pepCalls, lease);
    forall t { HolderAppend(w.log, RevertCalled(lease.target, lease.id, ok), t); }
  }

  // ---------------------------------------------------------------- apply

  /** Rows keep their identity and none becomes active. */
  ghost predicate Demoted(w: World, v: World) {
    && v.leases.Keys == w.leases.Keys
    && forall id | id in w.leases ::
         && v.leases[id].action == w.leases[id].action && v.leases[id].level == w.leases[id].level
         && v.leases[id].target == w.leases[id].target
         && (v.leases[id].status == Active ==> w.leases[id].status == Active)
  }

  /** What a renewal attempt may do to the active lease it found. */
  lemma RetireFound(env: Env, w: World, existing: Lease, status: Status)
    requires Inv(w) && existing.id in w.leases && w.leases[existing.id] == existing && existing.status == Active
    requires status == Superseded || status == Conflict
    ensures
      var (w', ok) := UpdateStatus(env, w, existing.id, status);
      && Inv(w') && Demoted(w, w') && w'.tokens == w.tokens && w'.enforced == w.enforced && w'.log == w.log
      && (ok ==> forall j | j in w'.leases :: !IsActive(w'.leases[j], existing.target, existing.action, existing.level))
  {
    UpdateStatusKeeps(env, w, existing.id, status);
    StatusDemotes(env, w, existing.id, status);
  }

  lemma StatusDemotes(env: Env, w: World, id: string, status: Status)
    requires status != Active
    ensures Demoted(w, UpdateStatus(env, w, id, status).0)
  {
  }

  lemma ExtendFound(env: Env, w: World, existing: Lease, r: Resolution, now: int)
    requires Inv(w) && existing.id in w.leases && w.leases[existing.id] == existing
    requires IsActive(existing, r.target, r.action, r.level)
    ensures
      var (w', ok) := Upsert(env, w, RenewedLease(existing, r, now));
      Inv(w') && Demoted(w, w') && w'.tokens == w.tokens && w'.enforced == w.enforced && w'.log == w.log
  {
    ReplaceKeeps(env, w, RenewedLease(existing, r, now));
    ReplaceDemotes(env, w, RenewedLease(existing, r, now));
  }

  lemma ReplaceDemotes(env: Env, w: World, lease: Lease)
    requires lease.id in w.leases && SameKey(w.leases[lease.id], lease)
    ensures Demoted(w, Upsert(env, w, lease).0)
  {
  }

  /** A renewal leaves tokens and history alone, and gives up only when no active lease holds the key. */
  ghost predicate RenewalOk(w: World, w': World, res: RenewResult, target: string, action: Action, level: Level) {
    && Inv(w') && Demoted(w, w')
    && w'.tokens == w.tokens && w'.enforced == w.enforced && w'.log == w.log
    && (res == NotRenewed ==> forall j | j in w'.leases :: !IsActive(w'.leases[j], target, action, level))
  }

  lemma RenewFoundKeeps(env: Env, w: World, existing: Lease, r: Resolution, now: int)
    requires Inv(w) && existing.id in w.leases && w.leases[existing.id] == existing
    requires IsActive(existing, r.target, r.action, r.level)
    ensures var (w', res) := RenewFound(env, w, existing, r, now);
      RenewalOk(w, w', res, r.target, r.action, r.level)
  {
    if ExecutionChanged(existing.metadata, r.metadata) {
      RetireFound(env, w, existing, Superseded);
    } else {
      var (w1, current) := CurrentToken(env, w, existing);
      OnlyReadsKeeps(w, w1);
      if current.Some? {
        if current.value != existing.token {
          RetireFound(env, w1, existing, Conflict);
        } else {
          ExtendFound(env, w1, existing, r, now);
        }
      }
    }
  }

  lemma RenewKeeps(env: Env, w: World, r: Resolution, now: int)
    requires Inv(w)
    ensures var (w', res) := Renew(env, w, r, now);
      RenewalOk(w, w', res, r.target, r.action, r.level)
  {
    LookupHit(w.leases, r.target, r.action, r.level);
    var (w1, f) := FindActive(env, w, r.target, r.action, r.level);
    OnlyReadsKeeps(w, w1);
    if f.Hit? { RenewFoundKeeps(env, w1, f.lease, r, now); }
  }

  lemma {:induction false} SupersedeKeeps(env: Env, w: World, applied: Lease, pairs: seq<Pair>)
    requires Inv(w)
    ensures var w' := Supersede(env, w, applied, pairs).0;
      Inv(w') && w'.leases.Keys == w.leases.Keys && w'.tokens == w.tokens && w'.enforced == w.enforced
        && w'.log == w.log
    decreases |pairs|
  {
    if pairs != [] {
      var (w1, f) := FindActive(env, w, applied.target, pairs[0].0, pairs[0].1);
      OnlyReadsKeeps(w, w1);
      if f.Hit? && f.lease.id != applied.id
        && Strength(f.lease.action, f.lease.level) < Strength(applied.action, applied.level) {
        RetireKeeps(env, w1, applied.target, pairs[0].0, pairs[0].1);
        SupersedeKeeps(env, UpdateStatus(env, w1, f.lease.id, Superseded).0, applied, pairs[1..]);
      } else {
        SupersedeKeeps(env, w1, applied, pairs[1..]);
      }
    }
  }

  lemma RetireKeeps(env: Env, w: World, target: string, action: Action, level: Level)
    requires Inv(w) && Lookup3(w.leases, target, action, level).Hit?
    ensures var w' := UpdateStatus(env, w, Lookup3(w.leases, target, action, level).lease.id, Superseded).0;
      Inv(w') && w'.leases.Keys == w.leases.Keys && w'.tokens == w.tokens && w'.enforced == w.enforced
        && w'.log == w.log
  {
    LookupHit(w.leases, target, action, level);
    UpdateStatusKeeps(env, w, Lookup3(w.leases, target, action, level).lease.id, Superseded);
  }

  lemma GrantKeeps(env: Env, w: World, r: Resolution, id: string, now: int)
    requires Inv(w) && id !in w.leases
    requires forall j | j in w.leases :: !IsActive(w.leases[j], r.target, r.action, r.level)
    ensures Inv(Grant(env, w, r, id, now).0)
  {
    var lease := NewLease(r, id, now);
    InsertKeeps(env, w, lease);
    var (w1, stored) := Upsert(env, w, lease);
    if stored {
      PepApplyKeeps(env, w1, lease, r.active);
      var (w2, applied) := PepApply(env, w1, lease, r.active);
      UpdateStatusKeeps(env, w2, id, Failed);
      if applied {
        UpdateStatusKeeps(env, w2, id, Active);
        var w3 := UpdateStatus(env, w2, id, Active).0;
        SupersedeKeeps(env, w3, lease, Pairs(ActionsWithRequested(lease.action), RISING));
      }
    }
  }

  lemma GatesRead(env: Env, w: World, r: Resolution, target: string)
    ensures OnlyReads(w, Gates(env, w, r, target).0)
  {
    PrerequisitesRead(env, w, r.action, target, env.policy.allowances);
    var w1 := Prerequisites(env, w, r.action, target, env.policy.allowances).0;
    StrongestReads(env, w1, target, Pairs(ActionsWithRequested(r.action), FALLING), 0);
  }

  lemma ApplyKeeps(env: Env, w: World, r: Resolution, id: string, now: int)
    requires Inv(w) && id !in w.leases
    ensures Inv(Apply(env, w, r, id, now).0)
  {
    if NeedsLease(r) {
      GatesRead(env, w, r, r.target);
      var (w1, g) := Gates(env, w, r, r.target);
      OnlyReadsKeeps(w, w1);
      if g == Open {
        RenewKeeps(env, w1, r, now);
        var (w2, kept) := Renew(env, w1, r, now);
        if kept == NotRenewed { GrantKeeps(env, w2, r, id, now); }
      }
    }
  }

  // ---------------------------------------------------------------- revert and reconciliation

  lemma RevertKeeps(env: Env, w: World, lease: Lease)
    requires Inv(w) && CopyOfRow(w, lease)
    ensures Inv(Revert(env, w, lease).0)
  {
    var (w1, current) := CurrentToken(env, w, lease);
    OnlyReadsKeeps(w, w1);
    if current.None? {
      UpdateStatusKeeps(env, w1, lease.id, Failed);
    } else if current.value != lease.token {
      UpdateStatusKeeps(env, w1, lease.id, Conflict);
    } else {
      PepRevertKeeps(env, w1, lease);
      var w2 := PepRevert(env, w1, lease).0;
      UpdateStatusKeeps(env, w2, lease.id, Failed);
      UpdateStatusKeeps(env, w2, lease.id, Reverted);
    }
  }

  /** A revert writes no column of any row but its own lease's status. */
  lemma RevertKeepsRows(env: Env, w: World, lease: Lease, other: Lease)
    requires CopyOfRow(w, lease) && CopyOfRow(w, other)
    ensures CopyOfRow(Revert(env, w, lease).0, other)
    ensures Revert(env, w, lease).0.leases.Keys == w.leases.Keys
    ensures other.id != lease.id ==> Revert(env, w, lease).0.leases[other.id] == w.leases[other.id]
  {
  }

  lemma {:induction false} RevertAllKeeps(env: Env, w: World, leases: seq<Lease>)
    requires Inv(w) && forall i | 0 <= i < |leases| :: CopyOfRow(w, leases[i])
    ensures Inv(RevertAll(env, w, leases).0)
    decreases |leases|
  {
    if leases != [] {
      RevertKeeps(env, w, leases[0]);
      var (w1, ok) := Revert(env, w, leases[0]);
      forall i | 0 <= i < |leases| { RevertKeepsRows(env, w, leases[0], leases[i]); }
      if ok { RevertAllKeeps(env, w1, leases[1..]); }
    }
  }

  lemma {:induction false} FailAllKeeps(env: Env, w: World, leases: seq<Lease>)
    requires Inv(w)
    ensures Inv(FailAll(env, w, leases).0)
    decreases |leases|
  {
    if leases != [] {
      UpdateStatusKeeps(env, w, leases[0].id, Failed);
      var (w1, ok) := UpdateStatus(env, w, leases[0].id, Failed);
      if ok { FailAllKeeps(env, w1, leases[1..]); }
    }
  }

  lemma NextKeeps(env: Env, w: World, op: Op)
    requires Inv(w) && Enabled(w, op)
    ensures Inv(Next(env, w, op))
  {
    match op
    case DoApply(r, id, now, policy) => ApplyKeeps(Under(env, policy), w, r, id, now);
    case DoExpire(now, listed) =>
      var w1 := w.(storeCalls := w.storeCalls + 1);
      assert Inv(w1);
      RevertAllKeeps(env, w1, listed);
    case DoReconcile(listed) =>
      var w1 := w.(storeCalls := w.storeCalls + 1);
      assert Inv(w1);
      FailAllKeeps(env, w1, listed);
  }

  /** Lease journal invariant: in every reachable state, whatever calls failed on the way, there is at
      most one active lease per (target, action, level), and the PEP remembers exactly the token of the
      lease in force on each target. */
  lemma {:induction false} JournalInvariant(env: Env, ops: seq<Op>)
    requires IsRun(env, ops)
    ensures Inv(After(env, ops))
  {
    if ops != [] {
      JournalInvariant(env, ops[..|ops| - 1]);
      NextKeeps(env, After(env, ops[..|ops| - 1]), ops[|ops| - 1]);
    }
  }

  // ---------------------------------------------------------------- fencing

  ghost predicate CallsPepRevert(env: Env, w: World, lease: Lease) {
    |Revert(env, w, lease).0.log| > |w.log|
  }

  /** A revert reaches the PEP exactly when no other lease is in force on the target; otherwise it
      changes neither enforcement nor tokens and marks its lease as a conflict. */
  lemma RevertIsFenced(env: Env, w: World, lease: Lease)
    requires Inv(w) && CopyOfRow(w, lease) && !env.pepFails(w.pepCalls)
    ensures
      var (w', n) := (Revert(env, w, lease).0, Holder(w.log, lease.target));
      if n == None || n == Some(lease.id) then
        CallsPepRevert(env, w, lease)
        && w'.log == w.log + [RevertCalled(lease.target, lease.id, RevertWorks(env, w.pepCalls + 1, lease))]
      else
        !CallsPepRevert(env, w, lease)
        && w'.log == w.log && w'.tokens == w.tokens
        && (!env.storeFails(w.storeCalls) ==>
          w'.leases == w.leases[lease.id := w.leases[lease.id].(status := Conflict)])
  {
  }

  /** Fencing safety: while another lease is in force on the target, an expiry never undoes it. */
  lemma FencingSafety(env: Env, ops: seq<Op>, lease: Lease, newer: string)
    requires IsRun(env, ops) && CopyOfRow(After(env, ops), lease)
    requires newer != lease.id && InForce(After(env, ops).log, lease.target, newer)
    ensures !CallsPepRevert(env, After(env, ops), lease)
    ensures InForce(Revert(env, After(env, ops), lease).0.log, lease.target, newer)
  {
    var w := After(env, ops);
    JournalInvariant(env, ops);
    HolderIsInForce(w.log, lease.target, newer);
    if !env.pepFails(w.pepCalls) { RevertIsFenced(env, w, lease); }
  }

  /** Some active lease on the target was applied after the last application of `lease`. */
  ghost predicate NewerActive(w: World, lease: Lease) {
    exists id, j: nat :: AppliedLater(w, lease, id, j)
  }

  ghost predicate AppliedLater(w: World, lease: Lease, id: string, j: nat) {
    && id in w.leases && id != lease.id && w.leases[id].status == Active && w.leases[id].target == lease.target
    && j < |w.log| && w.log[j] == Applied(lease.target, id)
    && forall i | 0 <= i < |w.log| && w.log[i] == Applied(lease.target, lease.id) :: i < j
  }

  lemma HolderIsNewest(w: World, lease: Lease)
    requires Holder(w.log, lease.target) == Some(lease.id)
    ensures !NewerActive(w, lease)
  {
    HolderIsInForce(w.log, lease.target, lease.id);
    var i: nat :| InForceAt(w.log, lease.target, lease.id, i);
    forall id, j: nat ensures !AppliedLater(w, lease, id, j) {
      assert w.log[i] == Applied(lease.target, lease.id);
      if j < |w.log| && i < j { assert !(w.log[j].Applied? && w.log[j].target == lease.target); }
    }
  }

  /** The stronger reading of fencing (an expiry never undoes any newer active lease) fails exactly
      when the PEP remembers no token for the target: then every lease passes for the current one. */
  lemma FencingGapIff(env: Env, w: World, lease: Lease)
    requires Inv(w) && CopyOfRow(w, lease) && !env.pepFails(w.pepCalls) && NewerActive(w, lease)
    ensures CallsPepRevert(env, w, lease) <==> lease.target !in w.tokens
  {
    RevertIsFenced(env, w, lease);
    if Holder(w.log, lease.target) == Some(lease.id) { HolderIsNewest(w, lease); }
  }
}
