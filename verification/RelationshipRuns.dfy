/** Whole broker runs of the relationship adapter: what its leases decode to, and what its backend denies. */
module RelationshipRuns {
  import opened Text
  import opened LeaseTargets
  import opened RelationshipKey
  import opened RelationshipTarget
  import opened LeaseJournal
  import opened BrokerRows
  import opened BrokerEnforcement

  /** The relationship PEP names what it denies by canonical text. */
  ghost function Named(printable: char -> bool, key: Option<RelationshipKey>): Option<string> {
    if key.None? then None else Some(Canonical(printable, key.value))
  }

  lemma NamedInjective(printable: char -> bool, a: Option<RelationshipKey>, b: Option<RelationshipKey>)
    ensures Named(printable, a) == Named(printable, b) <==> a == b
  {
    if a.Some? && b.Some? { CanonicalInjective(printable, a.value, b.value); }
  }

  /** The relationship a lease is reverted for. */
  ghost function Decoded(target: string, metadata: map<string, string>): Option<RelationshipKey> {
    FromActionTarget(TargetFromLease(target, metadata))
  }

  ghost predicate NamesRelationships(printable: char -> bool, env: Env) {
    forall t, m {:trigger env.names(t, m)} :: env.names(t, m) == Named(printable, Decoded(t, m))
  }

  /** The resolution was planned for a relationship target. */
  ghost predicate Carries(r: Resolution, t: ActionTarget) {
    && t.granularity == RELATIONSHIP && r.target == TargetString(t)
    && exists ra, rl, params :: r.metadata == BuildMetadata(ra, rl, t, params)
  }

  lemma CarriedDecodes(r: Resolution, t: ActionTarget)
    requires Carries(r, t)
    ensures Decoded(r.target, r.metadata) == FromActionTarget(t)
  {
    var ra, rl, params :| r.metadata == BuildMetadata(ra, rl, t, params);
    RevertHitsApplied(t, ra, rl, params);
  }

  // ---------------------------------------------------------------- what leases decode to

  /** Some apply of the run wrote these two columns. */
  ghost predicate WrittenBy(ops: seq<Op>, l: Lease) {
    exists i :: 0 <= i < |ops| && ops[i].DoApply? && l.target == ops[i].r.target && l.metadata == ops[i].r.metadata
  }

  lemma AlwaysWritten(env: Env, ops: seq<Op>, id: string)
    requires IsRun(env, ops) && id in After(env, ops).leases
    ensures WrittenBy(ops, After(env, ops).leases[id])
  {
    var p: LeaseProperty := (l: Lease) => WrittenBy(ops, l);
    forall i | 0 <= i < |ops| && ops[i].DoApply? && NeedsLease(ops[i].r)
      ensures Establishes(p, Under(env, ops[i].policy), ops[i].r) { }
    RowsFromApplies(p, env, ops);
    assert p(After(env, ops).leases[id]);
  }

  /** In every reachable state every lease decodes, on revert, to exactly what the relationship target of some
      apply on its target string decodes to: whatever that target is, and whatever calls failed. */
  lemma LeasesDecodeTheirTargets(env: Env, ops: seq<Op>, targets: seq<ActionTarget>, id: string)
    requires IsRun(env, ops) && |targets| == |ops| && id in After(env, ops).leases
    requires forall i | 0 <= i < |ops| && ops[i].DoApply? :: Carries(ops[i].r, targets[i])
    ensures var l := After(env, ops).leases[id];
      exists i :: 0 <= i < |ops| && ops[i].DoApply? && l.target == TargetString(targets[i])
                  && Decoded(l.target, l.metadata) == FromActionTarget(targets[i])
  {
    AlwaysWritten(env, ops, id);
    var l := After(env, ops).leases[id];
    var i :| 0 <= i < |ops| && ops[i].DoApply? && l.target == ops[i].r.target && l.metadata == ops[i].r.metadata;
    CarriedDecodes(ops[i].r, targets[i]);
  }

  /** When applies on one target string agree on the relationship, every lease on it reverts that one. */
  lemma RevertHitsAppliedInRuns(env: Env, ops: seq<Op>, targets: seq<ActionTarget>, id: string,
      applied: Option<RelationshipKey>)
    requires IsRun(env, ops) && |targets| == |ops| && id in After(env, ops).leases
    requires forall i | 0 <= i < |ops| && ops[i].DoApply? :: Carries(ops[i].r, targets[i])
    requires forall i | 0 <= i < |ops| && ops[i].DoApply?
      && TargetString(targets[i]) == After(env, ops).leases[id].target ::
      FromActionTarget(targets[i]) == applied
    ensures var l := After(env, ops).leases[id]; Decoded(l.target, l.metadata) == applied
  {
    LeasesDecodeTheirTargets(env, ops, targets, id);
  }

  // ---------------------------------------------------------------- what the backend denies

  /** The PEP denies the relationship its caller hands it, the lease is filed under the resolution's target.
      Denying a new relationship and reverting the lease restores the backend exactly when the two name the
      same relationship. */
  lemma RevertAllowsDeniedIff(printable: char -> bool, env: Env, w: World, lease: Lease, t: ActionTarget,
      r: Resolution, denied: RelationshipKey)
    requires NamesRelationships(printable, env) && Carries(r, t) && lease.target == r.target
      && lease.metadata == r.metadata
    requires Canonical(printable, denied) !in w.enforced
    requires ApplyWorks(env, w.pepCalls, Named(printable, Some(denied))) && RevertWorks(env, w.pepCalls + 1, lease)
    ensures var w1 := PepApply(env, w, lease, Named(printable, Some(denied))).0;
      PepRevert(env, w1, lease).0.enforced == w.enforced <==> FromActionTarget(t) == Some(denied)
  {
    RevertLiftsIff(env, w, lease, Canonical(printable, denied));
    CarriedDecodes(r, t);
    NamedInjective(printable, FromActionTarget(t), Some(denied));
  }

  predicate OnRelationship(target: string) {
    RELATIONSHIP + ":" <= target
  }

  /** The value part of a relationship's target string. */
  function ValueOf(target: string): string {
    if OnRelationship(target) then target[|RELATIONSHIP| + 1..] else ""
  }

  lemma ValuesDiffer()
    ensures Naming(ValueOf, OnRelationship)
  {
    forall s, t | OnRelationship(s) && OnRelationship(t) && ValueOf(s) == ValueOf(t) ensures s == t {
      assert s == RELATIONSHIP + ":" + ValueOf(s) && t == RELATIONSHIP + ":" + ValueOf(t);
    }
  }

  lemma ValueOfTarget(t: ActionTarget)
    requires t.granularity == RELATIONSHIP
    ensures OnRelationship(TargetString(t)) && ValueOf(TargetString(t)) == t.value
  {
    var head := RELATIONSHIP + ":";
    assert TargetString(t) == head + t.value;
  }

  /** An apply is faithful exactly when the relationship handed to the PEP is the one the resolution's target
      decodes to, and the target's value is its canonical text. */
  lemma FaithfulIff(printable: char -> bool, env: Env, op: Op, t: ActionTarget, denied: RelationshipKey)
    requires NamesRelationships(printable, env) && op.DoApply? && NeedsLease(op.r) && Carries(op.r, t)
    requires op.r.active == Named(printable, Some(denied))
    ensures Faithful(env, ValueOf, OnRelationship, op)
        <==> FromActionTarget(t) == Some(denied) && t.value == Canonical(printable, denied)
  {
    CarriedDecodes(op.r, t);
    NamedInjective(printable, FromActionTarget(t), Some(denied));
    ValueOfTarget(t);
  }

  /** Every relationship the decoder builds makes its applies faithful. */
  lemma ProposalIsFaithful(printable: char -> bool, env: Env, op: Op, key: RelationshipKey)
    requires NamesRelationships(printable, env) && op.DoApply? && NeedsLease(op.r) && Normal(key)
    requires Carries(op.r, Proposal(printable, key)) && op.r.active == Named(printable, Some(key))
    ensures Faithful(env, ValueOf, OnRelationship, op)
  {
    ProposalRoundTripIff(printable, key);
    FaithfulIff(printable, env, op, Proposal(printable, key), key);
  }

  /** So in every reachable state of faithful runs the backend denies a relationship exactly while its target
      holds a fencing token, whatever calls failed. */
  lemma DeniedIsHeld(env: Env, ops: seq<Op>, target: string)
    requires IsRun(env, ops) && forall i | 0 <= i < |ops| :: Faithful(env, ValueOf, OnRelationship, ops[i])
    requires OnRelationship(target)
    ensures ValueOf(target) in After(env, ops).enforced <==> Held(After(env, ops).log, target)
  {
    ValuesDiffer();
    EnforcedIsHeld(env, ValueOf, OnRelationship, ops);
    var w := After(env, ops);
    if ValueOf(target) in w.enforced {
      var t :| Held(w.log, t) && ValueOf(t) == ValueOf(target);
      assert t == target;
    }
  }
}
