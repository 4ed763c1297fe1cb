/** What the broker makes of calls that fail: an operation answers with an error exactly when one of its own calls
    on the store or the PEP failed, and a refusal is never a failure in disguise. */
module BrokerFailures {
  import opened Text
  import opened LeaseTargets
  import opened LeaseJournal
  import opened BrokerInvariants
  import opened BrokerCoverage
  import opened BrokerGates
  import opened BrokerAnswers

  /** No call between the two states failed. */
  ghost predicate Answered(env: Env, w: World, w': World) {
    && (forall i | w.storeCalls <= i < w'.storeCalls :: !env.storeFails(i))
    && (forall i | w.pepCalls <= i < w'.pepCalls :: !env.pepFails(i))
  }

  predicate Later(w: World, w': World) {
    w.storeCalls <= w'.storeCalls && w.pepCalls <= w'.pepCalls
  }

  lemma AnsweredBoth(env: Env, w: World, w1: World, w2: World)
    requires Later(w, w1) && Later(w1, w2)
    ensures Later(w, w2) && (Answered(env, w, w2) <==> Answered(env, w, w1) && Answered(env, w1, w2))
  {
  }

  // ---------------------------------------------------------------- single calls

  lemma LookupAnswers(env: Env, w: World, target: string, action: Action, level: Level)
    ensures var (w1, f) := FindActive(env, w, target, action, level);
      Later(w, w1) && (f == FindError <==> !Answered(env, w, w1)) && w1.leases == w.leases
  {
  }

  lemma StatusAnswers(env: Env, w: World, id: string, status: Status)
    ensures var (w1, ok) := UpdateStatus(env, w, id, status);
      Later(w, w1) && (ok <==> Answered(env, w, w1)) && w1.leases.Keys == w.leases.Keys
  {
  }

  lemma UpsertAnswers(env: Env, w: World, lease: Lease)
    ensures var (w1, ok) := Upsert(env, w, lease);
      && Later(w, w1) && (ok <==> Answered(env, w, w1))
      && w1.leases.Keys == w.leases.Keys + if ok then {lease.id} else {}
  {
  }

  lemma TokenAnswers(env: Env, w: World, lease: Lease)
    ensures var (w1, token) := CurrentToken(env, w, lease);
      Later(w, w1) && (token.None? <==> !Answered(env, w, w1)) && w1.leases == w.leases
  {
  }

  lemma PepAnswers(env: Env, w: World, lease: Lease, active: Option<string>)
    ensures var (w1, ok) := PepApply(env, w, lease, active);
      Later(w, w1) && (ok <==> Answered(env, w, w1) && active.Some?) && w1.leases == w.leases
  {
  }

  // ---------------------------------------------------------------- the gates

  lemma {:induction false} HasActiveAnswers(env: Env, w: World, target: string, action: Action, levels: seq<Level>)
    ensures var (w', g) := HasActive(env, w, target, action, levels);
      Later(w, w') && (g == GateError <==> !Answered(env, w, w')) && w'.leases == w.leases
    decreases |levels|
  {
    if levels != [] {
      LookupAnswers(env, w, target, action, levels[0]);
      var (w1, f) := FindActive(env, w, target, action, levels[0]);
      if f == Missing {
        HasActiveAnswers(env, w1, target, action, levels[1..]);
        AnsweredBoth(env, w, w1, HasActive(env, w1, target, action, levels[1..]).0);
      }
    }
  }

  lemma {:induction false} PrerequisitesAnswer(env: Env, w: World, action: Action, target: string,
      allowances: seq<Allowance>)
    ensures var (w', g) := Prerequisites(env, w, action, target, allowances);
      Later(w, w') && (g == GateError <==> !Answered(env, w, w')) && w'.leases == w.leases
    decreases |allowances|
  {
    if allowances != [] {
      var (a, rest) := (allowances[0], allowances[1..]);
      if a.action != action || a.requiresPrevious == NoAction {
        PrerequisitesAnswer(env, w, action, target, rest);
      } else {
        HasActiveAnswers(env, w, target, a.requiresPrevious, RISING);
        var (w1, g) := HasActive(env, w, target, a.requiresPrevious, RISING);
        if g == Open {
          PrerequisitesAnswer(env, w1, action, target, rest);
          AnsweredBoth(env, w, w1, Prerequisites(env, w1, action, target, rest).0);
        }
      }
    }
  }

  lemma {:induction false} StrongestAnswers(env: Env, w: World, target: string, pairs: seq<Pair>, weight: nat)
    ensures var (w', s) := Strongest(env, w, target, pairs, weight);
      Later(w, w') && (s == ScanError <==> !Answered(env, w, w')) && w'.leases == w.leases
    decreases |pairs|
  {
    if pairs != [] {
      LookupAnswers(env, w, target, pairs[0].0, pairs[0].1);
      var (w1, f) := FindActive(env, w, target, pairs[0].0, pairs[0].1);
      if f != FindError {
        var more := if f.Hit? && Strength(f.lease.action, f.lease.level) > weight
          then Strength(f.lease.action, f.lease.level) else weight;
        StrongestAnswers(env, w1, target, pairs[1..], more);
        AnsweredBoth(env, w, w1, Strongest(env, w1, target, pairs[1..], more).0);
      }
    }
  }

  lemma GatesAnswer(env: Env, w: World, r: Resolution)
    ensures var (w', g) := Gates(env, w, r, r.target);
      Later(w, w') && (g == GateError <==> !Answered(env, w, w')) && w'.leases == w.leases
  {
    PrerequisitesAnswer(env, w, r.action, r.target, env.policy.allowances);
    var (w1, g) := Prerequisites(env, w, r.action, r.target, env.policy.allowances);
    if g == Open {
      StrongestAnswers(env, w1, r.target, Pairs(ActionsWithRequested(r.action), FALLING), 0);
      AnsweredBoth(env, w, w1, NoStronger(env, w1, r, r.target).0);
    }
  }

  // ---------------------------------------------------------------- renewal and grant

  lemma RenewAnswers(env: Env, w: World, r: Resolution, now: int)
    requires RowsOk(w.leases)
    ensures var (w', k) := Renew(env, w, r, now);
      Later(w, w') && (k == RenewError <==> !Answered(env, w, w')) && w'.leases.Keys == w.leases.Keys
  {
    LookupHit(w.leases, r.target, r.action, r.level);
    LookupAnswers(env, w, r.target, r.action, r.level);
    var (w1, f) := FindActive(env, w, r.target, r.action, r.level);
    if f.Hit? {
      RenewFoundAnswers(env, w1, f.lease, r, now);
      AnsweredBoth(env, w, w1, RenewFound(env, w1, f.lease, r, now).0);
    }
  }

  lemma RenewFoundAnswers(env: Env, w: World, existing: Lease, r: Resolution, now: int)
    requires existing.id in w.leases
    ensures var (w', k) := RenewFound(env, w, existing, r, now);
      Later(w, w') && (k == RenewError <==> !Answered(env, w, w')) && w'.leases.Keys == w.leases.Keys
  {
    if ExecutionChanged(existing.metadata, r.metadata) {
      StatusAnswers(env, w, existing.id, Superseded);
    } else {
      TokenAnswers(env, w, existing);
      var (w1, current) := CurrentToken(env, w, existing);
      StatusAnswers(env, w1, existing.id, Conflict);
      UpsertAnswers(env, w1, RenewedLease(existing, r, now));
      AnsweredBoth(env, w, w1, RenewFound(env, w, existing, r, now).0);
    }
  }

  lemma {:induction false} SupersedeAnswers(env: Env, w: World, applied: Lease, pairs: seq<Pair>)
    ensures var (w', ok) := Supersede(env, w, applied, pairs);
      Later(w, w') && (ok <==> Answered(env, w, w')) && w'.leases.Keys == w.leases.Keys
    decreases |pairs|
  {
    if pairs != [] {
      LookupAnswers(env, w, applied.target, pairs[0].0, pairs[0].1);
      var (w1, f) := FindActive(env, w, applied.target, pairs[0].0, pairs[0].1);
      if f != FindError {
        var weaker := f.Hit? && f.lease.id != applied.id
          && Strength(f.lease.action, f.lease.level) < Strength(applied.action, applied.level);
        if weaker { StatusAnswers(env, w1, f.lease.id, Superseded); }
        var w2 := if weaker then UpdateStatus(env, w1, f.lease.id, Superseded).0 else w1;
        AnsweredBoth(env, w, w1, w2);
        SupersedeAnswers(env, w2, applied, pairs[1..]);
        AnsweredBoth(env, w, w2, Supersede(env, w2, applied, pairs[1..]).0);
      }
    }
  }

  lemma GrantAnswers(env: Env, w: World, r: Resolution, id: string, now: int)
    requires id !in w.leases
    ensures var (w', o) := Grant(env, w, r, id, now);
      Later(w, w') && (o == Error <==> !Answered(env, w, w') || (r.active.None? && id in w'.leases))
  {
    var lease := NewLease(r, id, now);
    UpsertAnswers(env, w, lease);
    var (w1, stored) := Upsert(env, w, lease);
    if stored {
      PepAnswers(env, w1, lease, r.active);
      var (w2, applied) := PepApply(env, w1, lease, r.active);
      AnsweredBoth(env, w, w1, w2);
      ActivateAnswers(env, w2, lease, if applied then Active else Failed);
      AnsweredBoth(env, w, w2, Grant(env, w, r, id, now).0);
    }
  }

  lemma ActivateAnswers(env: Env, w: World, lease: Lease, status: Status)
    requires lease.id in w.leases
    ensures var (w1, ok) := UpdateStatus(env, w, lease.id, status);
      && Later(w, w1) && (ok <==> Answered(env, w, w1)) && lease.id in w1.leases
      && var (w2, retired) := SupersedeWeaker(env, w1, lease);
      Later(w, w2) && (ok ==> (retired <==> Answered(env, w, w2))) && lease.id in w2.leases
  {
    StatusAnswers(env, w, lease.id, status);
    var w1 := UpdateStatus(env, w, lease.id, status).0;
    SupersedeAnswers(env, w1, lease, Pairs(ActionsWithRequested(lease.action), RISING));
    AnsweredBoth(env, w, w1, SupersedeWeaker(env, w1, lease).0);
  }

  // ---------------------------------------------------------------- whole operations

  /** What an apply does once its gates are open. */
  ghost function Proceeds(env: Env, w: World, r: Resolution, id: string, now: int): (World, Outcome) {
    var (w1, kept) := Renew(env, w, r, now);
    match kept
    case RenewError => (w1, Error)
    case Kept(o) => (w1, o)
    case NotRenewed => Grant(env, w1, r, id, now)
  }

  lemma ProceedsAnswers(env: Env, w: World, r: Resolution, id: string, now: int)
    requires Inv(w) && id !in w.leases
    ensures var (w', o) := Proceeds(env, w, r, id, now);
      Later(w, w') && (o == Error <==> !Answered(env, w, w') || (r.active.None? && id in w'.leases))
  {
    RenewAnswers(env, w, r, now);
    RenewKeeps(env, w, r, now);
    var (w1, k) := Renew(env, w, r, now);
    if k == NotRenewed {
      GrantAnswers(env, w1, r, id, now);
      AnsweredBoth(env, w, w1, Grant(env, w1, r, id, now).0);
    } else if k.Kept? {
      KeptIsNoError(env, w, r, now);
    }
  }

  lemma KeptIsNoError(env: Env, w: World, r: Resolution, now: int)
    ensures Renew(env, w, r, now).1.Kept? ==> Renew(env, w, r, now).1.outcome != Error
  {
  }

  /** An apply answers with an error exactly when one of its calls on the store or the PEP failed, or it had
      journaled a lease for which nothing was active. */
  lemma ErrorIff(env: Env, w: World, r: Resolution, id: string, now: int)
    requires Inv(w) && id !in w.leases
    ensures var (w', o) := Apply(env, w, r, id, now);
      o == Error <==> !Answered(env, w, w') || (r.active.None? && id in w'.leases)
  {
    if Needs(r) {
      GatesAnswer(env, w, r);
      GatesRead(env, w, r, r.target);
      var (w1, g) := Gates(env, w, r, r.target);
      OnlyReadsKeeps(w, w1);
      if g == Open {
        ProceedsAnswers(env, w1, r, id, now);
        AnsweredBoth(env, w, w1, Proceeds(env, w1, r, id, now).0);
      }
    }
  }

  // What a gate that answers says is what it says when no store call fails.

  lemma {:induction false} HasActiveAlike(env: Env, env': Env, w: World, target: string, action: Action,
      levels: seq<Level>)
    requires StoreReliable(env') && HasActive(env, w, target, action, levels).1 != GateError
    ensures HasActive(env', w, target, action, levels) == HasActive(env, w, target, action, levels)
    decreases |levels|
  {
    if levels != [] {
      var (w1, f) := FindActive(env, w, target, action, levels[0]);
      if f == Missing { HasActiveAlike(env, env', w1, target, action, levels[1..]); }
    }
  }

  lemma {:induction false} PrerequisitesAlike(env: Env, env': Env, w: World, action: Action, target: string,
      allowances: seq<Allowance>)
    requires StoreReliable(env') && Prerequisites(env, w, action, target, allowances).1 != GateError
    ensures Prerequisites(env', w, action, target, allowances) == Prerequisites(env, w, action, target, allowances)
    decreases |allowances|
  {
    if allowances != [] {
      var (a, rest) := (allowances[0], allowances[1..]);
      if a.action != action || a.requiresPrevious == NoAction {
        PrerequisitesAlike(env, env', w, action, target, rest);
      } else {
        HasActiveAlike(env, env', w, target, a.requiresPrevious, RISING);
        var (w1, g) := HasActive(env, w, target, a.requiresPrevious, RISING);
        if g == Open { PrerequisitesAlike(env, env', w1, action, target, rest); }
      }
    }
  }

  lemma {:induction false} StrongestAlike(env: Env, env': Env, w: World, target: string, pairs: seq<Pair>, weight: nat)
    requires StoreReliable(env') && Strongest(env, w, target, pairs, weight).1 != ScanError
    ensures Strongest(env', w, target, pairs, weight) == Strongest(env, w, target, pairs, weight)
    decreases |pairs|
  {
    if pairs != [] {
      var (w1, f) := FindActive(env, w, target, pairs[0].0, pairs[0].1);
      var more := if f.Hit? && Strength(f.lease.action, f.lease.level) > weight
        then Strength(f.lease.action, f.lease.level) else weight;
      StrongestAlike(env, env', w1, target, pairs[1..], more);
    }
  }

  lemma GatesAlike(env: Env, env': Env, w: World, r: Resolution)
    requires StoreReliable(env') && env'.policy == env.policy && Gates(env, w, r, r.target).1 != GateError
    ensures Gates(env', w, r, r.target) == Gates(env, w, r, r.target)
  {
    PrerequisitesAlike(env, env', w, r.action, r.target, env.policy.allowances);
    var (w1, g) := Prerequisites(env, w, r.action, r.target, env.policy.allowances);
    if g == Open && Strength(r.action, r.level) > 0 {
      StrongestAlike(env, env', w1, r.target, Pairs(ActionsWithRequested(r.action), FALLING), 0);
    }
  }

  /** Whatever calls fail, an apply is skipped only if it is held back, and only if it is not does it renew,
      grant or find its renewals used up. */
  lemma RefusalsAreReal(env: Env, w: World, r: Resolution, id: string, now: int)
    requires Inv(w) && id !in w.leases
    ensures var o := Apply(env, w, r, id, now).1;
      && (o == Skipped ==> Needs(r) && Held(env.policy, w.leases, r))
      && (o.Granted? || o.Renewed? || o.RenewalCapped? ==> Needs(r) && !Held(env.policy, w.leases, r))
  {
    if Needs(r) {
      var (w1, g) := Gates(env, w, r, r.target);
      var env' := env.(storeFails := (call: nat) => false);
      GatesIff(env', w, r);
      MissesIff(env.policy, w.leases, r);
      OutrankedIff(w.leases, r);
      if g != GateError { GatesAlike(env, env', w, r); }
      if g == Open {
        GatesRead(env, w, r, r.target);
        OpenNeverSkips(env, w, w1, r, id, now);
      }
    }
  }

  /** Reconciliation answers with an error exactly when one of its calls failed. */
  lemma ReconcileErrorIff(env: Env, w: World, listed: seq<Lease>)
    ensures var (w', ok) := ReconcilePending(env, w, listed);
      ok <==> Answered(env, w, w')
  {
    var w1 := w.(storeCalls := w.storeCalls + 1);
    if !env.storeFails(w.storeCalls) {
      FailAllAnswers(env, w1, listed);
      AnsweredBoth(env, w, w1, FailAll(env, w1, listed).0);
    }
  }

  lemma {:induction false} FailAllAnswers(env: Env, w: World, leases: seq<Lease>)
    ensures var (w', ok) := FailAll(env, w, leases);
      Later(w, w') && (ok <==> Answered(env, w, w'))
    decreases |leases|
  {
    if leases != [] {
      StatusAnswers(env, w, leases[0].id, Failed);
      var (w1, ok) := UpdateStatus(env, w, leases[0].id, Failed);
      if ok {
        FailAllAnswers(env, w1, leases[1..]);
        AnsweredBoth(env, w, w1, FailAll(env, w1, leases[1..]).0);
      }
    }
  }
}
