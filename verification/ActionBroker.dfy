/** The broker, its store and its PEP as objects updated in place. Every method is tied to the step of
    LeaseJournal it performs, so what is proved there about runs holds of these objects. */
module ActionBroker {
  import opened Text
  import opened LeaseTargets
  import opened LeaseJournal

  // ---------------------------------------------------------------- the lease store

  class LeaseStore {
    const fails: nat -> bool
    var leases: map<string, Lease>
    var calls: nat

    constructor (fails: nat -> bool)
      ensures this.fails == fails && leases == map[] && calls == 0
    {
      this.fails := fails;
      leases, calls := map[], 0;
    }

    method Upsert(lease: Lease) returns (ok: bool)
      modifies this
      ensures calls == old(calls) + 1 && ok == !fails(old(calls))
      ensures leases == if ok then old(leases)[lease.id := lease] else old(leases)
    {
      ok := !fails(calls);
      calls := calls + 1;
      if ok { leases := leases[lease.id := lease]; }
    }

    method UpdateStatus(id: string, status: Status) returns (ok: bool)
      modifies this
      ensures calls == old(calls) + 1 && ok == !fails(old(calls))
      ensures leases == if ok && id in old(leases) then old(leases)[id := old(leases)[id].(status := status)]
        else old(leases)
    {
      ok := !fails(calls);
      calls := calls + 1;
      if ok && id in leases { leases := leases[id := leases[id].(status := status)]; }
    }

    method FindActive(target: string, action: Action, level: Level) returns (found: Found)
      modifies this`calls
      ensures calls == old(calls) + 1
      ensures found == if fails(old(calls)) then FindError else Lookup3(leases, target, action, level)
    {
      calls := calls + 1;
      if fails(calls - 1) { return FindError; }
      found := NewestActive(leases, target, action, level);
    }

    /** The rows of one status, expired at or before `upTo` when given. */
    method List(status: Status, upTo: Option<int>) returns (listed: Option<seq<Lease>>)
      requires forall id | id in leases :: leases[id].id == id
      modifies this`calls
      ensures calls == old(calls) + 1 && (listed.None? <==> fails(old(calls)))
      ensures listed.Some? ==> Lists(leases, listed.value, status, upTo)
    {
      calls := calls + 1;
      if fails(calls - 1) { return None; }
      var rest, rows: seq<Lease> := leases.Keys, [];
      while rest != {}
        invariant rest <= leases.Keys
        invariant forall i | 0 <= i < |rows| ::
          rows[i].id in leases && leases[rows[i].id] == rows[i] && Selected(rows[i], status, upTo)
        invariant forall i | 0 <= i < |rows| :: rows[i].id !in rest
        invariant forall i, j | 0 <= i < j < |rows| :: rows[i].id != rows[j].id
        invariant forall id | id in leases && id !in rest && Selected(leases[id], status, upTo) ::
          exists i :: 0 <= i < |rows| && rows[i].id == id
        decreases |rest|
      {
        var id :| id in rest;
        ghost var before := rows;
        if Selected(leases[id], status, upTo) {
          rows := rows + [leases[id]];
          assert rows[|rows| - 1].id == id;
        }
        forall x | x in leases && x !in rest - {id} && Selected(leases[x], status, upTo)
          ensures exists i :: 0 <= i < |rows| && rows[i].id == x
        {
          if x != id {
            var i :| 0 <= i < |before| && before[i].id == x;
            assert rows[i].id == x;
          }
        }
        rest := rest - {id};
      }
      return Some(rows);
    }
  }

  /** The newest matching row, found by looking at every row in any order. */
  method NewestActive(leases: map<string, Lease>, target: string, action: Action, level: Level) returns (found: Found)
    ensures found == Lookup3(leases, target, action, level)
  {
    var rest := leases.Keys;
    var best: Option<string> := None;
    ghost var hits := {};
    while rest != {}
      invariant Looked(leases, rest, target, action, level, hits, best)
      decreases |rest|
    {
      var id :| id in rest;
      LookAt(leases, rest, target, action, level, hits, best, id);
      if IsActive(leases[id], target, action, level) {
        if best.None? || !NotNewer(leases, id, best.value) { best := Some(id); }
        hits := hits + {id};
      }
      rest := rest - {id};
    }
    LookedAtAll(leases, target, action, level, hits, best);
    return if best.None? then Missing else Hit(leases[best.value]);
  }

  /** Every row outside `rest` has been looked at: `hits` match, and `best` is the newest of them. */
  ghost predicate Looked(leases: map<string, Lease>, rest: set<string>, target: string, action: Action, level: Level,
                         hits: set<string>, best: Option<string>) {
    && rest <= leases.Keys && hits <= leases.Keys
    && (forall id :: id in hits <==> id in leases.Keys - rest && IsActive(leases[id], target, action, level))
    && BestOf(leases, hits, best) && (best.Some? ==> best.value in leases)
  }

  lemma LookAt(leases: map<string, Lease>, rest: set<string>, target: string, action: Action, level: Level,
               hits: set<string>, best: Option<string>, id: string)
    requires Looked(leases, rest, target, action, level, hits, best) && id in rest
    ensures if !IsActive(leases[id], target, action, level)
      then Looked(leases, rest - {id}, target, action, level, hits, best)
            else if best.None? || !NotNewer(leases, id, best.value)
            then Looked(leases, rest - {id}, target, action, level, hits + {id}, Some(id))
            else Looked(leases, rest - {id}, target, action, level, hits + {id}, best)
  {
    StepNewest(leases, hits, best, id);
  }

  lemma LookedAtAll(leases: map<string, Lease>, target: string, action: Action, level: Level, hits: set<string>,
      best: Option<string>)
    requires Looked(leases, {}, target, action, level, hits, best)
    ensures Lookup3(leases, target, action, level) == if best.None? then Missing else Hit(leases[best.value])
  {
    assert hits == ActiveIds(leases, target, action, level);
    if best.Some? { NewestUnique(leases, hits, best.value); }
  }

  ghost predicate BestOf(leases: map<string, Lease>, hits: set<string>, best: Option<string>)
    requires hits <= leases.Keys
  {
    if best.None? then hits == {} else IsNewest(leases, hits, best.value)
  }

  lemma StepNewest(leases: map<string, Lease>, hits: set<string>, best: Option<string>, id: string)
    requires hits <= leases.Keys && id in leases && BestOf(leases, hits, best)
    ensures if best.None? || !NotNewer(leases, id, best.value) then BestOf(leases, hits + {id}, Some(id))
            else BestOf(leases, hits + {id}, best)
  {
    NotNewerTotal(leases, id, id, id);
    if best.Some? && !NotNewer(leases, id, best.value) { NewestExtends(leases, hits, id, best.value); }
  }

  // ---------------------------------------------------------------- the PEP's token memory

  /** A lease whose fencing key is its target string. */
  ghost predicate Keyed(l: Lease) {
    FencingKey(l.target, l.metadata) == l.target
  }

  /** A PEP that remembers one token a target. Its caller sets what to enforce before an apply; a revert
      decodes what to stop enforcing out of the lease. `enforced` is the backend, by name. */
  class FencedPep {
    const fails: nat -> bool
    const decode: ActionTarget -> Option<string>
    var active: Option<string>
    var enforced: set<string>
    var tokens: map<string, Token>
    var calls: nat
    ghost var log: seq<PepEvent>

    constructor (fails: nat -> bool, decode: ActionTarget -> Option<string>)
      ensures this.fails == fails && this.decode == decode
      ensures active == None && enforced == {} && tokens == map[] && calls == 0 && log == []
    {
      this.fails, this.decode := fails, decode;
      active, enforced, tokens, calls, log := None, {}, map[], 0, [];
    }

    ghost function Names(): (string, map<string, string>) -> Option<string> {
      (target, metadata) => decode(TargetFromLease(target, metadata))
    }

    method KeyOf(lease: Lease) returns (key: string)
      ensures key == FencingKey(lease.target, lease.metadata)
    {
      if lease.target != "" { return lease.target; }
      var t := DecodeTarget(lease.target, lease.metadata);
      return TargetString(t);
    }

    method Begin(name: string)
      modifies this`active
      ensures active == Some(name)
    {
      active := Some(name);
    }

    method Finish()
      modifies this`active
      ensures active == None
    {
      active := None;
    }

    method Apply(lease: Lease) returns (ok: bool)
      requires Keyed(lease)
      modifies this`calls, this`tokens, this`enforced, this`log
      ensures calls == old(calls) + 1 && ok == (!fails(old(calls)) && active.Some?)
      ensures tokens == if ok then old(tokens)[lease.target := lease.token] else old(tokens)
      ensures enforced == if ok then old(enforced) + {active.value} else old(enforced)
      ensures log == if ok then old(log) + [Applied(lease.target, lease.id)] else old(log)
    {
      ok := !fails(calls) && active.Some?;
      calls := calls + 1;
      if ok {
        enforced := enforced + {active.value};
        var key := KeyOf(lease);
        tokens := tokens[key := lease.token];
        log := log + [Applied(lease.target, lease.id)];
      }
    }

    method CurrentFencingToken(lease: Lease) returns (token: Option<Token>)
      requires Keyed(lease)
      modifies this`calls
      ensures calls == old(calls) + 1
      ensures token == if fails(old(calls)) then None
                       else Some(if lease.target in tokens then tokens[lease.target] else lease.token)
    {
      calls := calls + 1;
      if fails(calls - 1) { return None; }
      var key := KeyOf(lease);
      return Some(if key in tokens then tokens[key] else lease.token);
    }

    method Revert(lease: Lease) returns (ok: bool)
      requires Keyed(lease)
      modifies this`calls, this`tokens, this`enforced, this`log
      ensures calls == old(calls) + 1 && ok == (!fails(old(calls)) && Names()(lease.target, lease.metadata).Some?)
      ensures log == old(log) + [RevertCalled(lease.target, lease.id, ok)]
      ensures enforced == if ok then old(enforced) - {Names()(lease.target, lease.metadata).value} else old(enforced)
      ensures tokens == if ok && lease.target in old(tokens) && old(tokens)[lease.target] == lease.token
                        then old(tokens) - {lease.target} else old(tokens)
    {
      var t := DecodeTarget(lease.target, lease.metadata);
      var name := decode(t);
      ok := !fails(calls) && name.Some?;
      calls := calls + 1;
      log := log + [RevertCalled(lease.target, lease.id, ok)];
      if ok {
        enforced := enforced - {name.value};
        var key := KeyOf(lease);
        if key in tokens && tokens[key] == lease.token { tokens := tokens - {key}; }
      }
    }
  }

  // ---------------------------------------------------------------- the broker

  /** An authorized action as the resolver hands it over; parameters are rendered as text. */
  datatype ActionResolution = ActionResolution(
    decisionId: string, allowed: bool, requestedAction: string, requestedLevel: string,
    action: Action, level: Level, target: ActionTarget, parameters: map<string, string>, ttl: int)

  /** The same resolution with its target string and lease metadata built, and what is to be enforced. */
  ghost function Plan(a: ActionResolution, active: Option<string>): Resolution {
    Resolution(a.decisionId, a.allowed, a.action, a.level, TargetString(a.target),
               BuildMetadata(a.requestedAction, a.requestedLevel, a.target, a.parameters), a.ttl, active)
  }

  ghost predicate RowsKeyed(leases: map<string, Lease>) {
    forall id | id in leases :: leases[id].id == id && Keyed(leases[id])
  }

  /** The requested action first, then the ordered ones not seen yet. */
  method RuntimeActions(requested: Action) returns (actions: seq<Action>)
    ensures actions == ActionsWithRequested(requested)
  {
    WithoutNothing(ORDERED_ACTIONS, NoAction);
    actions := AddUnseen(ORDERED_ACTIONS, requested);
  }

  method AddUnseen(ordered: seq<Action>, requested: Action) returns (actions: seq<Action>)
    requires forall i, j | 0 <= i < j < |ordered| :: ordered[i] != ordered[j]
    ensures actions == (if requested == NoAction then [] else [requested]) + Without(ordered, requested)
  {
    var seen: set<Action> := {requested};
    actions := if requested == NoAction then [] else [requested];
    ghost var first := actions;
    var i := 0;
    assert ordered[0..] == ordered;
    while i < |ordered|
      invariant 0 <= i <= |ordered|
      invariant requested in seen && forall k | i <= k < |ordered| :: ordered[k] in seen ==> ordered[k] == requested
      invariant actions + Without(ordered[i..], requested) == first + Without(ordered, requested)
    {
      assert ordered[i..][1..] == ordered[i + 1..];
      if ordered[i] !in seen {
        assert actions + ([ordered[i]] + Without(ordered[i + 1..], requested))
          == actions + [ordered[i]] + Without(ordered[i + 1..], requested);
        actions, seen := actions + [ordered[i]], seen + {ordered[i]};
      }
      i := i + 1;
    }
  }

  lemma {:induction false} WithoutNothing(s: seq<Action>, x: Action)
    requires x !in s
    ensures Without(s, x) == s
  {
    if s != [] { WithoutNothing(s[1..], x); }
  }

  /** Whether some execution parameter differs, looking at both key sets in any order. */
  method ExecutionMetadataChanged(existing: map<string, string>, next: map<string, string>) returns (changed: bool)
    ensures changed <==> ExecutionChanged(existing, next)
  {
    var rest := existing.Keys + next.Keys;
    while rest != {}
      invariant rest <= existing.Keys + next.Keys
      invariant forall k | k in existing.Keys + next.Keys && k !in rest ::
        !HasPrefix(k, EXECUTION_PREFIX) || Lookup(existing, k) == Lookup(next, k)
      decreases |rest|
    {
      var k :| k in rest;
      if HasPrefix(k, EXECUTION_PREFIX) && Lookup(existing, k) != Lookup(next, k) { return true; }
      rest := rest - {k};
    }
    return false;
  }

  /** The pairs still to visit when the outer loop is at `i` and the inner one at `j`. */
  ghost function PairsFrom(actions: seq<Action>, levels: seq<Level>, i: nat, j: nat): seq<Pair>
    requires i < |actions| && j <= |levels|
  {
    PairsOf(actions[i], levels[j..]) + Pairs(actions[i + 1..], levels)
  }

  lemma PairsNext(actions: seq<Action>, levels: seq<Level>, i: nat, j: nat)
    requires i < |actions| && j < |levels|
    ensures PairsFrom(actions, levels, i, j) == [(actions[i], levels[j])] + PairsFrom(actions, levels, i, j + 1)
    ensures PairsFrom(actions, levels, i, j)[1..] == PairsFrom(actions, levels, i, j + 1)
  {
    assert levels[j..][1..] == levels[j + 1..];
  }

  lemma PairsEdges(actions: seq<Action>, levels: seq<Level>, i: nat)
    requires i < |actions|
    ensures PairsFrom(actions, levels, i, 0) == Pairs(actions[i..], levels)
    ensures PairsFrom(actions, levels, i, |levels|) == Pairs(actions[i + 1..], levels)
  {
    assert actions[i..][1..] == actions[i + 1..];
    assert levels[0..] == levels;
  }

  lemma SupersedeOne(env: Env, w: World, applied: Lease, pairs: seq<Pair>)
    requires pairs != []
    ensures var (w1, ok) := Supersede(env, w, applied, [pairs[0]]);
      Supersede(env, w, applied, pairs) == if ok then Supersede(env, w1, applied, pairs[1..]) else (w1, false)
  {
  }

  lemma FoundIsRow(leases: map<string, Lease>, target: string, action: Action, level: Level)
    requires RowsKeyed(leases)
    ensures match Lookup3(leases, target, action, level)
      case Hit(l) => l.id in leases && leases[l.id] == l && Keyed(l) && l.target == target
      case _ => true
  {
  }

  class Broker {
    const store: LeaseStore
    const pep: FencedPep
    var maxRenewals: int
    var allowances: seq<Allowance>

    constructor (store: LeaseStore, pep: FencedPep, maxRenewals: int, allowances: seq<Allowance>)
      ensures this.store == store && this.pep == pep && this.maxRenewals == maxRenewals && this.allowances == allowances
    {
      this.store, this.pep, this.maxRenewals, this.allowances := store, pep, maxRenewals, allowances;
    }

    /** A new policy pack replaces the limits between two operations. */
    method UpdateAutonomyConstraints(allowances: seq<Allowance>, maxRenewals: int)
      modifies this
      ensures this.maxRenewals == maxRenewals && this.allowances == allowances
    {
      this.allowances, this.maxRenewals := allowances, maxRenewals;
    }

    ghost function State(): World
      reads store, pep
    {
      World(store.leases, pep.tokens, pep.enforced, pep.log, store.calls, pep.calls)
    }

    ghost function Faults(): Env
      reads this
    {
      Env(store.fails, pep.fails, pep.Names(), Policy(maxRenewals, allowances))
    }

    ghost predicate Valid()
      reads store
    {
      RowsKeyed(store.leases)
    }

    // The calls on the two collaborators, each as one step of the machine.

    method Find(target: string, action: Action, level: Level) returns (f: Found)
      modifies store`calls
      ensures (State(), f) == FindActive(Faults(), old(State()), target, action, level)
      ensures Valid() && f.Hit? ==>
        f.lease.id in store.leases && store.leases[f.lease.id] == f.lease && Keyed(f.lease) && f.lease.target == target
    {
      if Valid() { FoundIsRow(store.leases, target, action, level); }
      f := store.FindActive(target, action, level);
    }

    method SetStatus(id: string, status: Status) returns (ok: bool)
      modifies store
      ensures old(Valid()) ==> Valid()
      ensures (State(), ok) == UpdateStatus(Faults(), old(State()), id, status)
    {
      ok := store.UpdateStatus(id, status);
    }

    method Journal(lease: Lease) returns (ok: bool)
      requires Keyed(lease)
      modifies store
      ensures old(Valid()) ==> Valid()
      ensures (State(), ok) == Upsert(Faults(), old(State()), lease)
    {
      ok := store.Upsert(lease);
    }

    method Enforce(lease: Lease) returns (ok: bool)
      requires Keyed(lease)
      modifies pep
      ensures pep.active == old(pep.active)
      ensures (State(), ok) == PepApply(Faults(), old(State()), lease, pep.active)
    {
      ok := pep.Apply(lease);
    }

    method Current(lease: Lease) returns (token: Option<Token>)
      requires Keyed(lease)
      modifies pep`calls
      ensures (State(), token) == CurrentToken(Faults(), old(State()), lease)
    {
      token := pep.CurrentFencingToken(lease);
    }

    method Undo(lease: Lease) returns (ok: bool)
      requires Keyed(lease)
      modifies pep
      ensures pep.active == old(pep.active)
      ensures (State(), ok) == PepRevert(Faults(), old(State()), lease)
    {
      ok := pep.Revert(lease);
    }

    method HasActiveLease(target: string, action: Action) returns (g: Gate)
      modifies store`calls
      ensures (State(), g) == HasActive(Faults(), old(State()), target, action, RISING)
    {
      var i := 0;
      while i < |RISING|
        invariant 0 <= i <= |RISING|
        invariant HasActive(Faults(), State(), target, action, RISING[i..])
               == HasActive(Faults(), old(State()), target, action, RISING)
      {
        assert RISING[i..][1..] == RISING[i + 1..];
        var f := Find(target, action, RISING[i]);
        if f.FindError? { return GateError; }
        if f.Hit? { return Open; }
        i := i + 1;
      }
      return Closed;
    }

    method PrerequisitesActive(action: Action, target: string) returns (g: Gate)
      modifies store`calls
      ensures (State(), g) == Prerequisites(Faults(), old(State()), action, target, allowances)
    {
      var i := 0;
      while i < |allowances|
        invariant 0 <= i <= |allowances|
        invariant Prerequisites(Faults(), State(), action, target, allowances[i..])
               == Prerequisites(Faults(), old(State()), action, target, allowances)
      {
        assert allowances[i..][1..] == allowances[i + 1..];
        if allowances[i].action == action && allowances[i].requiresPrevious != NoAction {
          g := HasActiveLease(target, allowances[i].requiresPrevious);
          if g != Open { return; }
        }
        i := i + 1;
      }
      return Open;
    }

    /** The greatest strength among the active leases of the target, over both nested loops. */
    method StrongestActive(target: string, requested: Action) returns (s: Scan)
      modifies store`calls
      ensures (State(), s) == Strongest(Faults(), old(State()), target,
        Pairs(ActionsWithRequested(requested), FALLING), 0)
    {
      var actions := RuntimeActions(requested);
      ghost var all := Pairs(actions, FALLING);
      var weight := 0;
      var i := 0;
      while i < |actions|
        invariant 0 <= i <= |actions|
        invariant Strongest(Faults(), State(), target, Pairs(actions[i..], FALLING), weight)
               == Strongest(Faults(), old(State()), target, all, 0)
      {
        PairsEdges(actions, FALLING, i);
        var j := 0;
        while j < |FALLING|
          invariant 0 <= j <= |FALLING|
          invariant Strongest(Faults(), State(), target, PairsFrom(actions, FALLING, i, j), weight)
                 == Strongest(Faults(), old(State()), target, all, 0)
        {
          PairsNext(actions, FALLING, i, j);
          var f := Find(target, actions[i], FALLING[j]);
          if f.FindError? { return ScanError; }
          if f.Hit? && Strength(f.lease.action, f.lease.level) > weight {
            weight := Strength(f.lease.action, f.lease.level);
          }
          j := j + 1;
        }
        i := i + 1;
      }
      return Scanned(weight);
    }

    method StrongerActive(r: Resolution) returns (g: Gate)
      modifies store`calls
      ensures (State(), g) == NoStronger(Faults(), old(State()), r, r.target)
    {
      if Strength(r.action, r.level) == 0 { return Open; }
      var s := StrongestActive(r.target, r.action);
      return if s.ScanError? then GateError else if s.weight > Strength(r.action, r.level) then Closed else Open;
    }

    method RenewActiveLease(r: Resolution, now: int) returns (res: RenewResult)
      requires Valid() && FencingKey(r.target, r.metadata) == r.target
      modifies store, pep
      ensures Valid() && pep.active == old(pep.active)
      ensures (State(), res) == Renew(Faults(), old(State()), r, now)
    {
      var f := Find(r.target, r.action, r.level);
      if f.FindError? { return RenewError; }
      if f.Missing? { return NotRenewed; }
      var existing := f.lease;
      var changed := ExecutionMetadataChanged(existing.metadata, r.metadata);
      if changed {
        var ok := SetStatus(existing.id, Superseded);
        return if ok then NotRenewed else RenewError;
      }
      var current := Current(existing);
      if current.None? { return RenewError; }
      if current.value != existing.token {
        var ok := SetStatus(existing.id, Conflict);
        return if ok then NotRenewed else RenewError;
      }
      if maxRenewals > 0 && existing.renewals >= maxRenewals { return Kept(RenewalCapped(existing.id)); }
      var ok := Journal(RenewedLease(existing, r, now));
      return if ok then Kept(Renewed(existing.id)) else RenewError;
    }

    method RetireIfWeaker(applied: Lease, action: Action, level: Level) returns (ok: bool)
      requires Valid()
      modifies store
      ensures Valid()
      ensures (State(), ok) == Supersede(Faults(), old(State()), applied, [(action, level)])
    {
      var f := Find(applied.target, action, level);
      if f.FindError? { return false; }
      if f.Missing? || f.lease.id == applied.id { return true; }
      if Strength(f.lease.action, f.lease.level) >= Strength(applied.action, applied.level) { return true; }
      ok := SetStatus(f.lease.id, Superseded);
    }

    method SupersedeWeakerLeases(applied: Lease) returns (ok: bool)
      requires Valid()
      modifies store
      ensures Valid()
      ensures (State(), ok) == SupersedeWeaker(Faults(), old(State()), applied)
    {
      if Strength(applied.action, applied.level) == 0 { return true; }
      var actions := RuntimeActions(applied.action);
      ghost var all := Pairs(actions, RISING);
      var i := 0;
      while i < |actions|
        invariant 0 <= i <= |actions| && Valid()
        invariant Supersede(Faults(), State(), applied, Pairs(actions[i..], RISING))
               == Supersede(Faults(), old(State()), applied, all)
      {
        PairsEdges(actions, RISING, i);
        var j := 0;
        while j < |RISING|
          invariant 0 <= j <= |RISING| && Valid()
          invariant Supersede(Faults(), State(), applied, PairsFrom(actions, RISING, i, j))
                 == Supersede(Faults(), old(State()), applied, all)
        {
          PairsNext(actions, RISING, i, j);
          SupersedeOne(Faults(), State(), applied, PairsFrom(actions, RISING, i, j));
          ok := RetireIfWeaker(applied, actions[i], RISING[j]);
          if !ok { return; }
          j := j + 1;
        }
        i := i + 1;
      }
      return true;
    }

    /** Journal the intent, enforce it, activate the row, retire weaker rows. */
    method GrantLease(r: Resolution, id: string, now: int) returns (o: Outcome)
      requires Valid() && FencingKey(r.target, r.metadata) == r.target && r.active == pep.active
      modifies store, pep
      ensures Valid() && pep.active == old(pep.active)
      ensures (State(), o) == Grant(Faults(), old(State()), r, id, now)
    {
      var lease := NewLease(r, id, now);
      var stored := Journal(lease);
      if !stored { return Error; }
      var applied := Enforce(lease);
      if !applied {
        var _ := SetStatus(id, Failed);
        return Error;
      }
      var activated := SetStatus(id, Active);
      if !activated { return Error; }
      var retired := SupersedeWeakerLeases(lease);
      return if retired then Granted(id) else Error;
    }

    method Apply(a: ActionResolution, id: string, now: int) returns (o: Outcome)
      requires Valid()
      modifies store, pep
      ensures Valid() && pep.active == old(pep.active)
      ensures (State(), o) == LeaseJournal.Apply(Faults(), old(State()), Plan(a, pep.active), id, now)
    {
      if !a.allowed { return Denied; }
      if a.level == NoLevel || a.level == Observe || a.ttl <= 0 { return NoLease; }
      var metadata := WriteMetadata(a.requestedAction, a.requestedLevel, a.target, a.parameters);
      FencingKeyIsTarget(a.requestedAction, a.requestedLevel, a.target, a.parameters);
      var r := Resolution(a.decisionId, a.allowed, a.action, a.level, TargetString(a.target), metadata, a.ttl,
        pep.active);
      o := ApplyPlanned(r, id, now);
    }

    /** A blocking resolution on a relationship: tell the PEP what to enforce, apply, and clear it again. */
    method ApplyRelationship(name: string, a: ActionResolution, id: string, now: int) returns (o: Outcome)
      requires Valid()
      modifies store, pep
      ensures Valid()
      ensures !a.allowed || a.level != Block || a.ttl <= 0 ==> State() == old(State()) && o == if a.allowed
        then Skipped else Denied
      ensures a.allowed && a.level == Block && a.ttl > 0 ==>
        pep.active == None && (State(), o) == LeaseJournal.Apply(Faults(), old(State()), Plan(a, Some(name)), id, now)
    {
      if !a.allowed { return Denied; }
      if a.level != Block || a.ttl <= 0 { return Skipped; }
      pep.Begin(name);
      o := Apply(a, id, now);
      pep.Finish();
    }

    method ApplyPlanned(r: Resolution, id: string, now: int) returns (o: Outcome)
      requires Valid() && FencingKey(r.target, r.metadata) == r.target && NeedsLease(r) && r.active == pep.active
      modifies store, pep
      ensures Valid() && pep.active == old(pep.active)
      ensures (State(), o) == LeaseJournal.Apply(Faults(), old(State()), r, id, now)
    {
      var g := PrerequisitesActive(r.action, r.target);
      if g != Open { return if g == GateError then Error else Skipped; }
      g := StrongerActive(r);
      if g != Open { return if g == GateError then Error else Skipped; }
      var kept := RenewActiveLease(r, now);
      match kept
      case RenewError => return Error;
      case Kept(outcome) => return outcome;
      case NotRenewed => o := GrantLease(r, id, now);
    }

    method Revert(lease: Lease) returns (ok: bool)
      requires Valid() && Keyed(lease)
      modifies store, pep
      ensures Valid()
      ensures (State(), ok) == LeaseJournal.Revert(Faults(), old(State()), lease)
    {
      var current := Current(lease);
      if current.None? {
        var _ := SetStatus(lease.id, Failed);
        return false;
      }
      if current.value != lease.token {
        ok := SetStatus(lease.id, Conflict);
        return;
      }
      var reverted := Undo(lease);
      if !reverted {
        var _ := SetStatus(lease.id, Failed);
        return false;
      }
      ok := SetStatus(lease.id, Reverted);
    }

    /** Revert every active row whose expiry is at or before `now`, stopping at the first error. */
    method RevertExpired(now: int) returns (ok: bool, ghost listed: seq<Lease>)
      requires Valid()
      modifies store, pep
      ensures Valid()
      ensures store.fails(old(store.calls)) || Lists(old(store.leases), listed, Active, Some(now))
      ensures (State(), ok) == LeaseJournal.RevertExpired(Faults(), old(State()), listed)
    {
      var rows := store.List(Active, Some(now));
      if rows.None? { return false, []; }
      listed := rows.value;
      ok := RevertEach(rows.value);
    }

    method RevertEach(rows: seq<Lease>) returns (ok: bool)
      requires Valid() && forall k | 0 <= k < |rows| :: Keyed(rows[k])
      modifies store, pep
      ensures Valid()
      ensures (State(), ok) == RevertAll(Faults(), old(State()), rows)
    {
      var i := 0;
      while i < |rows|
        invariant 0 <= i <= |rows| && Valid()
        invariant RevertAll(Faults(), State(), rows[i..]) == RevertAll(Faults(), old(State()), rows)
      {
        assert rows[i..][1..] == rows[i + 1..];
        ok := Revert(rows[i]);
        if !ok { return; }
        i := i + 1;
      }
      ok := true;
    }

    /** Fail the rows a crash left pending. */
    method ReconcilePending() returns (ok: bool, ghost listed: seq<Lease>)
      requires Valid()
      modifies store
      ensures Valid()
      ensures store.fails(old(store.calls)) || Lists(old(store.leases), listed, Pending, None)
      ensures (State(), ok) == LeaseJournal.ReconcilePending(Faults(), old(State()), listed)
    {
      var rows := store.List(Pending, None);
      if rows.None? { return false, []; }
      listed := rows.value;
      ok := FailEach(rows.value);
    }

    method FailEach(rows: seq<Lease>) returns (ok: bool)
      requires Valid()
      modifies store
      ensures Valid()
      ensures (State(), ok) == FailAll(Faults(), old(State()), rows)
    {
      var i := 0;
      while i < |rows|
        invariant 0 <= i <= |rows| && Valid()
        invariant FailAll(Faults(), State(), rows[i..]) == FailAll(Faults(), old(State()), rows)
      {
        assert rows[i..][1..] == rows[i + 1..];
        ok := SetStatus(rows[i].id, Failed);
        if !ok { return; }
        i := i + 1;
      }
      ok := true;
    }
  }
}
