/** What the PEP's backend really enforces, against what the journal and the fencing tokens say. */
module BrokerEnforcement {
  import opened Text
  import opened LeaseJournal
  import opened BrokerInvariants
  import opened BrokerRows
  import opened BrokerCoverage
  import opened BrokerFencing

  /** Enforcing something new under a lease and reverting that lease leaves the backend as it was exactly
      when the lease names what was enforced. */
  lemma RevertLiftsIff(env: Env, w: World, lease: Lease, enforced: string)
    requires enforced !in w.enforced
    requires ApplyWorks(env, w.pepCalls, Some(enforced)) && RevertWorks(env, w.pepCalls + 1, lease)
    ensures var w1 := PepApply(env, w, lease, Some(enforced)).0;
      PepRevert(env, w1, lease).0.enforced == w.enforced <==> env.names(lease.target, lease.metadata) == Some(enforced)
  {
    var name := env.names(lease.target, lease.metadata).value;
    if name != enforced { assert enforced in w.enforced + {enforced} - {name}; }
  }

  // ---------------------------------------------------------------- faithful naming

  predicate Held(log: seq<PepEvent>, t: string) {
    Holder(log, t).Some?
  }

  /** On proper targets, `name` tells distinct targets apart. */
  ghost predicate Naming(name: string -> string, proper: string -> bool) {
    forall s, t | proper(s) && proper(t) && name(s) == name(t) :: s == t
  }

  /** What an apply enforces is what its target stands for, and what its lease will name. */
  predicate Faithful(env: Env, name: string -> string, proper: string -> bool, op: Op) {
    op.DoApply? && NeedsLease(op.r) ==>
      && proper(op.r.target) && op.r.active == Some(name(op.r.target))
      && env.names(op.r.target, op.r.metadata) == op.r.active
  }

  /** Rows are on proper targets and name what those stand for. */
  predicate WellNamed(env: Env, name: string -> string, proper: string -> bool, l: Lease) {
    proper(l.target) && env.names(l.target, l.metadata) == Some(name(l.target))
  }

  ghost predicate AllWellNamed(env: Env, name: string -> string, proper: string -> bool, leases: map<string, Lease>) {
    forall id | id in leases :: WellNamed(env, name, proper, leases[id])
  }

  lemma AlwaysWellNamed(env: Env, name: string -> string, proper: string -> bool, ops: seq<Op>)
    requires IsRun(env, ops) && forall i | 0 <= i < |ops| :: Faithful(env, name, proper, ops[i])
    ensures AllWellNamed(env, name, proper, After(env, ops).leases)
  {
    var p: LeaseProperty := (l: Lease) => WellNamed(env, name, proper, l);
    forall i | 0 <= i < |ops| && ops[i].DoApply? && NeedsLease(ops[i].r)
      ensures Establishes(p, Under(env, ops[i].policy), ops[i].r) { }
    RowsFromApplies(p, env, ops);
    forall id | id in After(env, ops).leases ensures WellNamed(env, name, proper, After(env, ops).leases[id]) {
      assert p(After(env, ops).leases[id]);
    }
  }

  /** The backend enforces exactly what the held targets stand for. */
  ghost predicate Mirrors(w: World, name: string -> string, proper: string -> bool) {
    && (forall t | Held(w.log, t) :: proper(t) && name(t) in w.enforced)
    && (forall e | e in w.enforced :: exists t :: Held(w.log, t) && name(t) == e)
  }

  // ---------------------------------------------------------------- one event

  lemma AppliedMirrors(w: World, w': World, name: string -> string, proper: string -> bool, t: string, id: string)
    requires Mirrors(w, name, proper) && proper(t)
    requires w'.log == w.log + [Applied(t, id)] && w'.enforced == w.enforced + {name(t)}
    ensures Mirrors(w', name, proper)
  {
    forall u { HolderAppend(w.log, Applied(t, id), u); }
    forall e | e in w'.enforced ensures exists u :: Held(w'.log, u) && name(u) == e {
      if e == name(t) {
        assert Held(w'.log, t);
      } else {
        var u :| Held(w.log, u) && name(u) == e;
        assert Held(w'.log, u);
      }
    }
  }

  lemma RevertedMirrors(w: World, w': World, name: string -> string, proper: string -> bool, t: string, id: string,
      ok: bool)
    requires Naming(name, proper) && Mirrors(w, name, proper) && proper(t) && Holder(w.log, t) in {None, Some(id)}
    requires w'.log == w.log + [RevertCalled(t, id, ok)] && w'.enforced == if ok then w.enforced - {name(t)}
      else w.enforced
    ensures Mirrors(w', name, proper)
  {
    forall u { HolderAppend(w.log, RevertCalled(t, id, ok), u); }
    forall e | e in w'.enforced ensures exists u :: Held(w'.log, u) && name(u) == e {
      var u :| Held(w.log, u) && name(u) == e;
      assert Held(w'.log, u);
    }
  }

  // ---------------------------------------------------------------- one operation

  lemma RevertEnforces(env: Env, w: World, lease: Lease)
    ensures var w' := Revert(env, w, lease).0;
      (w'.log == w.log && w'.enforced == w.enforced)
      || (var ok := RevertWorks(env, w.pepCalls + 1, lease);
          w'.log == w.log + [RevertCalled(lease.target, lease.id, ok)]
          && w'.enforced == if ok then w.enforced - {env.names(lease.target, lease.metadata).value} else w.enforced)
  {
  }

  lemma RevertMirrors(env: Env, w: World, name: string -> string, proper: string -> bool, lease: Lease)
    requires Naming(name, proper) && Inv(w) && CopyOfRow(w, lease) && Mirrors(w, name, proper)
      && WellNamed(env, name, proper, lease)
    ensures Mirrors(Revert(env, w, lease).0, name, proper)
  {
    RevertEnforces(env, w, lease);
    var (w', ok) := (Revert(env, w, lease).0, RevertWorks(env, w.pepCalls + 1, lease));
    if w'.log != w.log && !env.pepFails(w.pepCalls) {
      RevertIsFenced(env, w, lease);
      RevertedMirrors(w, w', name, proper, lease.target, lease.id, ok);
    }
  }

  lemma {:induction false} RevertAllMirrors(env: Env, w: World, name: string -> string, proper: string -> bool,
      leases: seq<Lease>)
    requires Naming(name, proper) && Inv(w) && Mirrors(w, name, proper)
    requires NamedCopies(env, name, proper, w, leases)
    ensures Mirrors(RevertAll(env, w, leases).0, name, proper)
    decreases |leases|
  {
    if leases != [] {
      RevertKeeps(env, w, leases[0]);
      RevertMirrors(env, w, name, proper, leases[0]);
      var (w1, ok) := Revert(env, w, leases[0]);
      NamedCopiesKept(env, name, proper, w, leases);
      if ok { RevertAllMirrors(env, w1, name, proper, leases[1..]); }
    }
  }

  /** The leases are well named copies of rows. */
  ghost predicate NamedCopies(env: Env, name: string -> string, proper: string -> bool, w: World, leases: seq<Lease>) {
    forall i | 0 <= i < |leases| :: CopyOfRow(w, leases[i]) && WellNamed(env, name, proper, leases[i])
  }

  lemma NamedCopiesKept(env: Env, name: string -> string, proper: string -> bool, w: World, leases: seq<Lease>)
    requires leases != [] && NamedCopies(env, name, proper, w, leases)
    ensures NamedCopies(env, name, proper, Revert(env, w, leases[0]).0, leases[1..])
  {
    var w1 := Revert(env, w, leases[0]).0;
    forall i | 0 <= i < |leases[1..]|
      ensures CopyOfRow(w1, leases[1..][i]) && WellNamed(env, name, proper, leases[1..][i])
    {
      RevertKeepsRows(env, w, leases[0], leases[i + 1]);
    }
  }

  lemma ListedNamed(env: Env, name: string -> string, proper: string -> bool, w: World, listed: seq<Lease>, now: int)
    requires Lists(w.leases, listed, Active, Some(now)) && AllWellNamed(env, name, proper, w.leases)
    ensures NamedCopies(env, name, proper, w, listed)
  {
    forall i | 0 <= i < |listed| ensures CopyOfRow(w, listed[i]) && WellNamed(env, name, proper, listed[i]) {
      assert listed[i].id in w.leases;
    }
  }

  lemma {:induction false} FailAllEnforced(env: Env, w: World, leases: seq<Lease>)
    ensures FailAll(env, w, leases).0.enforced == w.enforced
    decreases |leases|
  {
    if leases != [] {
      var (w1, ok) := UpdateStatus(env, w, leases[0].id, Failed);
      if ok { FailAllEnforced(env, w1, leases[1..]); }
    }
  }

  lemma NextMirrors(env: Env, w: World, name: string -> string, proper: string -> bool, op: Op)
    requires Naming(name, proper) && Inv(w) && Enabled(w, op) && Faithful(env, name, proper, op)
    requires Mirrors(w, name, proper) && AllWellNamed(env, name, proper, w.leases)
    ensures Mirrors(Next(env, w, op), name, proper)
  {
    match op
    case DoApply(r, id, now, policy) => ApplyMirrors(Under(env, policy), w, name, proper, op);
    case DoExpire(now, listed) => ExpireMirrors(env, w, name, proper, now, listed);
    case DoReconcile(listed) =>
      var w1 := w.(storeCalls := w.storeCalls + 1);
      FailAllLog(env, w1, listed);
      FailAllEnforced(env, w1, listed);
      SameMirrors(w, Next(env, w, op), name, proper);
  }

  lemma SameMirrors(w: World, v: World, name: string -> string, proper: string -> bool)
    requires Mirrors(w, name, proper) && v.log == w.log && v.enforced == w.enforced
    ensures Mirrors(v, name, proper)
  {
  }

  lemma ApplyMirrors(env: Env, w: World, name: string -> string, proper: string -> bool, op: Op)
    requires op.DoApply? && Inv(w) && op.id !in w.leases && Faithful(env, name, proper, op) && Mirrors(w, name, proper)
    ensures Mirrors(Apply(env, w, op.r, op.id, op.now).0, name, proper)
  {
    ApplyEnforces(env, w, op.r, op.id, op.now);
    var w' := Apply(env, w, op.r, op.id, op.now).0;
    if w'.log == w.log && w'.enforced == w.enforced {
      SameMirrors(w, w', name, proper);
    } else {
      AppliedMirrors(w, w', name, proper, op.r.target, op.id);
    }
  }

  lemma ListingMirrors(env: Env, w: World, w1: World, name: string -> string, proper: string -> bool, now: int,
      listed: seq<Lease>)
    requires Inv(w) && OnlyReads(w, w1) && Lists(w.leases, listed, Active, Some(now))
    requires Mirrors(w, name, proper) && AllWellNamed(env, name, proper, w.leases)
    ensures Inv(w1) && Mirrors(w1, name, proper) && NamedCopies(env, name, proper, w1, listed)
  {
    OnlyReadsKeeps(w, w1);
    SameMirrors(w, w1, name, proper);
    ListedNamed(env, name, proper, w1, listed, now);
  }

  lemma ExpireMirrors(env: Env, w: World, name: string -> string, proper: string -> bool, now: int, listed: seq<Lease>)
    requires Naming(name, proper) && Inv(w) && Lists(w.leases, listed, Active, Some(now))
    requires Mirrors(w, name, proper) && AllWellNamed(env, name, proper, w.leases)
    ensures Mirrors(RevertExpired(env, w, listed).0, name, proper)
  {
    var w1 := w.(storeCalls := w.storeCalls + 1);
    ListingMirrors(env, w, w1, name, proper, now, listed);
    RevertAllMirrors(env, w1, name, proper, listed);
    ExpireIsSweep(env, w, listed);
  }

  /** When every apply enforces what its target stands for and its lease names it, then in every reachable
      state, whatever calls fail, the backend enforces exactly what the targets with a token stand for. */
  lemma {:induction false} EnforcedIsHeld(env: Env, name: string -> string, proper: string -> bool, ops: seq<Op>)
    requires Naming(name, proper) && IsRun(env, ops) && forall i | 0 <= i < |ops| :: Faithful(env, name, proper, ops[i])
    ensures Mirrors(After(env, ops), name, proper)
  {
    if ops != [] {
      var before := ops[..|ops| - 1];
      JournalInvariant(env, before);
      AlwaysWellNamed(env, name, proper, before);
      EnforcedIsHeld(env, name, proper, before);
      NextMirrors(env, After(env, before), name, proper, ops[|ops| - 1]);
    }
  }

  /** And if no call fails, whatever the backend enforces belongs to an active lease that names it. */
  lemma EnforcedIsCovered(env: Env, name: string -> string, proper: string -> bool, ops: seq<Op>, e: string)
    requires Reliable(env) && Naming(name, proper) && IsRun(env, ops)
    requires forall i | 0 <= i < |ops| :: Faithful(env, name, proper, ops[i])
    requires e in After(env, ops).enforced
    ensures exists id :: id in After(env, ops).leases && After(env, ops).leases[id].status == Active
                         && env.names(After(env, ops).leases[id].target, After(env, ops).leases[id].metadata) == Some(e)
  {
    var w := After(env, ops);
    EnforcedIsHeld(env, name, proper, ops);
    AlwaysWellNamed(env, name, proper, ops);
    var t :| Held(w.log, t) && name(t) == e;
    var id := Holder(w.log, t).value;
    HolderIsInForce(w.log, t, id);
    TtlCoverage(env, ops, t, id);
    assert WellNamed(env, name, proper, w.leases[id]);
  }
}
