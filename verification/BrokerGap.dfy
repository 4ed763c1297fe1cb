/** A reachable state in which fencing falls short of its strongest reading: three blocking actions of
    equal strength are active on one target, the newest expires, and the oldest one's revert then
    reaches the PEP although a newer lease is still active. */
module BrokerGap {
  import opened Text
  import opened LeaseJournal
  import opened BrokerInvariants
  import opened BrokerCoverage

  const CLEAN: Env := Env(_ => false, _ => false, (target, _) => Some(target), Policy(0, []))

  predicate Blocking(action: Action) {
    action == Drop || action == Deny || action == Quarantine
  }

  function Request(host: string, action: Action, ttl: int): Resolution {
    Resolution("", true, action, Block, host, map[], ttl, Some(host))
  }

  function Row(host: string, action: Action, ttl: int, id: string): Lease {
    NewLease(Request(host, action, ttl), id, 0).(status := Active)
  }

  lemma {:induction false} ScanAtMost300(env: Env, w: World, target: string, pairs: seq<Pair>, weight: nat)
    requires StoreReliable(env) && weight <= 300
    ensures var s := Strongest(env, w, target, pairs, weight).1; s.Scanned? && s.weight <= 300
    decreases |pairs|
  {
    if pairs != [] {
      var (w1, f) := FindActive(env, w, target, pairs[0].0, pairs[0].1);
      ScanAtMost300(env, w1, target, pairs[1..], weight);
      if f.Hit? && Strength(f.lease.action, f.lease.level) > weight {
        ScanAtMost300(env, w1, target, pairs[1..], Strength(f.lease.action, f.lease.level));
      }
    }
  }

  lemma BlockingPasses(w: World, host: string, action: Action, ttl: int)
    requires Blocking(action)
    ensures var (w', g) := Gates(CLEAN, w, Request(host, action, ttl), host); g == Open && OnlyReads(w, w')
  {
    GatesRead(CLEAN, w, Request(host, action, ttl), host);
    ScanAtMost300(CLEAN, w, host, Pairs(ActionsWithRequested(action), FALLING), 0);
  }

  lemma NothingToRenew(w: World, host: string, action: Action, ttl: int)
    requires RowsOk(w.leases)
    requires forall j | j in w.leases :: !IsActive(w.leases[j], host, action, Block)
    ensures var (w', res) := Renew(CLEAN, w, Request(host, action, ttl), 0); res == NotRenewed && OnlyReads(w, w')
  {
    LookupHit(w.leases, host, action, Block);
  }

  /** A blocking action with no active twin is granted beside whatever is active already. */
  lemma BlockingGrant(w: World, host: string, action: Action, ttl: int, id: string)
    requires Inv(w) && id !in w.leases && ttl > 0 && Blocking(action)
    requires forall j | j in w.leases :: !IsActive(w.leases[j], host, action, Block)
    ensures GrantedRows(w, Apply(CLEAN, w, Request(host, action, ttl), id, 0).0,
      NewLease(Request(host, action, ttl), id, 0))
  {
    var r := Request(host, action, ttl);
    BlockingPasses(w, host, action, ttl);
    var w1 := Gates(CLEAN, w, r, host).0;
    OnlyReadsKeeps(w, w1);
    NothingToRenew(w1, host, action, ttl);
    var w2 := Renew(CLEAN, w1, r, 0).0;
    OnlyReadsKeeps(w1, w2);
    GrantEffect(CLEAN, w2, r, id, 0);
  }

  lemma BlockingRows(w: World, w': World, lease: Lease)
    requires GrantedRows(w, w', lease) && lease.id !in w.leases && Blocking(lease.action)
    requires forall j | j in w.leases :: Blocking(w.leases[j].action)
    ensures w'.leases == w.leases[lease.id := lease.(status := Active)]
  {
    forall j | j in w.leases ensures w'.leases[j] == w.leases[j] {
      StaysUnlessWeaker(w.leases[j], lease, RetirePairs(lease));
    }
  }

  /** Blocking leases never retire one another: a further one just joins the journal. */
  lemma BlockingJoins(w: World, host: string, action: Action, ttl: int, id: string)
    requires Inv(w) && id !in w.leases && ttl > 0 && Blocking(action)
    requires forall j | j in w.leases :: Blocking(w.leases[j].action) && w.leases[j].action != action
    ensures var w' := Apply(CLEAN, w, Request(host, action, ttl), id, 0).0;
      w'.leases == w.leases[id := Row(host, action, ttl, id)] && w'.log == w.log + [Applied(host, id)]
  {
    BlockingGrant(w, host, action, ttl, id);
    BlockingRows(w, Apply(CLEAN, w, Request(host, action, ttl), id, 0).0, NewLease(Request(host, action, ttl), id, 0));
  }

  ghost predicate Reachable(env: Env, w: World) {
    exists ops :: IsRun(env, ops) && After(env, ops) == w
  }

  lemma ReachableNext(env: Env, w: World, op: Op)
    requires Reachable(env, w) && Enabled(w, op)
    ensures Inv(w) && Reachable(env, Next(env, w, op)) && Inv(Next(env, w, op))
  {
    var ops :| IsRun(env, ops) && After(env, ops) == w;
    JournalInvariant(env, ops);
    NextKeeps(env, w, op);
    assert (ops + [op])[..|ops + [op]| - 1] == ops;
    assert IsRun(env, ops + [op]) && After(env, ops + [op]) == Next(env, w, op);
  }

  /** One more grant of the run. */
  lemma JoinRun(w: World, host: string, action: Action, ttl: int, id: string) returns (w': World)
    requires Reachable(CLEAN, w) && ttl > 0 && Blocking(action) && id !in w.leases
    requires forall j | j in w.leases :: Blocking(w.leases[j].action) && w.leases[j].action != action
    ensures Reachable(CLEAN, w')
    ensures w'.leases == w.leases[id := Row(host, action, ttl, id)] && w'.log == w.log + [Applied(host, id)]
  {
    var op := DoApply(Request(host, action, ttl), id, 0, CLEAN.policy);
    ReachableNext(CLEAN, w, op);
    BlockingJoins(w, host, action, ttl, id);
    w' := Next(CLEAN, w, op);
  }

  lemma TwoActive(host: string, a: string, b: string) returns (w: World)
    requires a != b
    ensures Reachable(CLEAN, w)
    ensures w.leases == map[a := Row(host, Drop, 100, a), b := Row(host, Deny, 200, b)]
    ensures w.log == [Applied(host, a), Applied(host, b)]
  {
    assert IsRun(CLEAN, []) && After(CLEAN, []) == EMPTY;
    var one := JoinRun(EMPTY, host, Drop, 100, a);
    w := JoinRun(one, host, Deny, 200, b);
  }

  lemma ThreeActive(host: string, a: string, b: string, c: string) returns (w: World)
    requires a != b && b != c && a != c
    ensures Reachable(CLEAN, w)
    ensures w.leases
      == map[a := Row(host, Drop, 100, a), b := Row(host, Deny, 200, b), c := Row(host, Quarantine, 50, c)]
    ensures w.log == [Applied(host, a), Applied(host, b), Applied(host, c)]
  {
    var two := TwoActive(host, a, b);
    w := JoinRun(two, host, Quarantine, 50, c);
  }

  /** Sweeping the one expired lease that holds the target forgets the target's token. */
  lemma SweepOne(env: Env, w: World, lease: Lease)
    requires Reliable(env) && Inv(w) && lease.id in w.leases && w.leases[lease.id] == lease && Decodes(env, lease)
    requires Holder(w.log, lease.target) == Some(lease.id)
    ensures
      var w' := RevertExpired(env, w, [lease]).0;
      && lease.target !in w'.tokens && w'.log == w.log + [RevertCalled(lease.target, lease.id, true)]
      && w'.leases.Keys == w.leases.Keys && forall id | id in w.leases && id != lease.id ::
        w'.leases[id] == w.leases[id]
  {
    var w1 := w.(storeCalls := w.storeCalls + 1);
    OnlyReadsKeeps(w, w1);
    RevertIsFenced(env, w1, lease);
    RevertKeeps(env, w1, lease);
    var w2 := Revert(env, w1, lease).0;
    SweepSingle(env, w, lease);
    HolderAppend(w.log, RevertCalled(lease.target, lease.id, true), lease.target);
    forall id | id in w.leases ensures id in w2.leases && (id != lease.id ==> w2.leases[id] == w.leases[id]) {
      RevertKeepsRows(env, w1, lease, w.leases[id]);
    }
  }

  lemma SweepSingle(env: Env, w: World, lease: Lease)
    requires StoreReliable(env)
    ensures RevertExpired(env, w, [lease]).0 == Revert(env, w.(storeCalls := w.storeCalls + 1), lease).0
  {
    var w2 := Revert(env, w.(storeCalls := w.storeCalls + 1), lease).0;
    assert [lease][1..] == [] && RevertAll(env, w2, []) == (w2, true);
  }

  lemma GapState(w: World, host: string, a: string, b: string, c: string)
    requires Inv(w) && a != b && b != c && a != c
    requires a in w.leases && w.leases[a] == Row(host, Drop, 100, a) && b in w.leases
      && w.leases[b] == Row(host, Deny, 200, b)
    requires w.log == [Applied(host, a), Applied(host, b), Applied(host, c), RevertCalled(host, c, true)]
      && host !in w.tokens
    ensures NewerActive(w, Row(host, Drop, 100, a)) && CallsPepRevert(CLEAN, w, Row(host, Drop, 100, a))
  {
    var lease := Row(host, Drop, 100, a);
    assert AppliedLater(w, lease, b, 1);
    FencingGapIff(CLEAN, w, lease);
  }

  lemma NewestExpires(w: World, host: string, a: string, b: string, c: string)
    requires a != b && b != c && a != c
    requires w.leases
      == map[a := Row(host, Drop, 100, a), b := Row(host, Deny, 200, b), c := Row(host, Quarantine, 50, c)]
    requires w.log == [Applied(host, a), Applied(host, b), Applied(host, c)]
    ensures Lists(w.leases, [Row(host, Quarantine, 50, c)], Active, Some(50)) && Holder(w.log, host) == Some(c)
  {
    HolderAppend([Applied(host, a), Applied(host, b)], Applied(host, c), host);
    assert [Row(host, Quarantine, 50, c)][0].id == c;
  }

  lemma SweepRun(w: World, lease: Lease, now: int) returns (w': World)
    requires Reachable(CLEAN, w) && Lists(w.leases, [lease], Active, Some(now))
      && Holder(w.log, lease.target) == Some(lease.id)
    ensures Reachable(CLEAN, w') && Inv(w') && lease.target !in w'.tokens
    ensures w'.log == w.log + [RevertCalled(lease.target, lease.id, true)]
    ensures w'.leases.Keys == w.leases.Keys && forall id | id in w.leases && id != lease.id ::
      w'.leases[id] == w.leases[id]
  {
    assert [lease][0] == lease;
    ReachableNext(CLEAN, w, DoExpire(now, [lease]));
    SweepOne(CLEAN, w, lease);
    w' := Next(CLEAN, w, DoExpire(now, [lease]));
  }

  /** The run: three grants, then the sweep at time 50. */
  lemma SweptRun(host: string, a: string, b: string, c: string) returns (w: World)
    requires a != b && b != c && a != c
    ensures Reachable(CLEAN, w) && Inv(w)
    ensures
      && a in w.leases && w.leases[a] == Row(host, Drop, 100, a) && b in w.leases
        && w.leases[b] == Row(host, Deny, 200, b)
      && w.log == [Applied(host, a), Applied(host, b), Applied(host, c), RevertCalled(host, c, true)]
        && host !in w.tokens
  {
    var three := ThreeActive(host, a, b, c);
    NewestExpires(three, host, a, b, c);
    w := SweepRun(three, Row(host, Quarantine, 50, c), 50);
  }

  /** The gap is reachable on any target, without a single failing call. */
  lemma FencingGapReachable(host: string, a: string, b: string, c: string)
    requires a != b && b != c && a != c
    ensures exists w, lease ::
              Reachable(CLEAN, w) && CopyOfRow(w, lease) && NewerActive(w, lease) && CallsPepRevert(CLEAN, w, lease)
  {
    var w := SweptRun(host, a, b, c);
    GapState(w, host, a, b, c);
  }
}
