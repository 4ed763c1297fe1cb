/** The action broker's protocol as a machine over a durable lease journal and a PEP that remembers one
    fencing token per target.

    Any store call and any PEP call may fail; which ones do is decided by two oracles indexed by call
    number, so a statement about all `Env` values is a statement about all failure patterns. */
module LeaseJournal {
  import opened Text
  import opened LeaseTargets

  // ---------------------------------------------------------------- data

  /** Action names; `NoAction` is the empty name. */
  datatype Action = NoAction | Drop | Deny | Quarantine | Disable | RateLimit | Other(name: string)

  /** Enforcement levels; `NoLevel` is the empty name. */
  datatype Level = NoLevel | Observe | Soft | Hard | Block | OtherLevel(name: string)

  datatype Status = Pending | Active | Reverted | Superseded | Failed | Conflict

  /** A fencing token, as the tuple whose digest it is: distinct leases have distinct tokens. */
  datatype Token = Token(target: string, action: Action, level: Level, decisionId: string, leaseId: string)

  datatype Lease = Lease(
    id: string, decisionId: string, target: string, action: Action, level: Level, status: Status,
    token: Token, appliedAt: int, expiresAt: int, metadata: map<string, string>, renewals: nat)

  /** An authorized action as the protocol sees it: target string and lease metadata already built. `active`
      is what the caller has told the PEP to enforce, if anything. */
  datatype Resolution = Resolution(
    decisionId: string, allowed: bool, action: Action, level: Level, target: string, metadata: map<string, string>,
    ttl: int, active: Option<string>)

  datatype PepEvent =
    | Applied(target: string, leaseId: string)
    | RevertCalled(target: string, leaseId: string, ok: bool)

  /** `enforced` is what the PEP's backend enforces, by name; `log` is the history of the PEP's enforcement
      changes, which no operation reads. */
  datatype World = World(
    leases: map<string, Lease>, tokens: map<string, Token>, enforced: set<string>, log: seq<PepEvent>,
    storeCalls: nat, pepCalls: nat)

  /** An allowance may require another action to be active first. */
  datatype Allowance = Allowance(action: Action, requiresPrevious: Action)

  /** The autonomy limits in force: `maxRenewals` of 0 means no cap. */
  datatype Policy = Policy(maxRenewals: int, allowances: seq<Allowance>)

  /** `names` is what a revert decodes, from a lease's target and metadata, as the thing to stop enforcing;
      nothing decoded is a failure of the PEP. */
  datatype Env = Env(
    storeFails: nat -> bool, pepFails: nat -> bool, names: (string, map<string, string>) -> Option<string>,
    policy: Policy)

  const EMPTY: World := World(map[], map[], {}, [], 0, 0)

  // ---------------------------------------------------------------- strength of actions

  const ORDERED_ACTIONS: seq<Action> := [Drop, Deny, Quarantine, Disable, RateLimit]

  function Strength(action: Action, level: Level): nat {
    if action.Drop? || action.Deny? || action.Quarantine? || action.Disable? then 300
    else match level
      case Block => 300
      case Hard => 200
      case Soft => 100
      case _ => 0
  }

  /** The requested action first, then the known ones, without repetition. */
  function ActionsWithRequested(requested: Action): seq<Action> {
    if requested == NoAction then ORDERED_ACTIONS else [requested] + Without(ORDERED_ACTIONS, requested)
  }

  function Without(s: seq<Action>, x: Action): (r: seq<Action>)
    ensures forall y :: y in r <==> y in s && y != x
  {
    if s == [] then [] else if s[0] == x then Without(s[1..], x) else [s[0]] + Without(s[1..], x)
  }

  type Pair = (Action, Level)

  /** The (action, level) pairs in the order two nested loops visit them. */
  function Pairs(actions: seq<Action>, levels: seq<Level>): seq<Pair> {
    if actions == [] then [] else PairsOf(actions[0], levels) + Pairs(actions[1..], levels)
  }

  function PairsOf(action: Action, levels: seq<Level>): seq<Pair> {
    if levels == [] then [] else [(action, levels[0])] + PairsOf(action, levels[1..])
  }

  const RISING: seq<Level> := [Soft, Hard, Block]
  const FALLING: seq<Level> := [Block, Hard, Soft]

  // ---------------------------------------------------------------- store calls

  datatype Found = FindError | Missing | Hit(lease: Lease)

  predicate IsActive(l: Lease, target: string, action: Action, level: Level) {
    l.status == Active && l.target == target && l.action == action && l.level == level
  }

  function ActiveIds(leases: map<string, Lease>, target: string, action: Action, level: Level): set<string> {
    set id | id in leases && IsActive(leases[id], target, action, level)
  }

  /** Newest first: by expiry, then by application time, then by id. */
  predicate NotNewer(leases: map<string, Lease>, i: string, j: string)
    requires i in leases && j in leases
  {
    var (a, b) := (leases[i], leases[j]);
    a.expiresAt < b.expiresAt
    || (a.expiresAt == b.expiresAt && (a.appliedAt < b.appliedAt
      || (a.appliedAt == b.appliedAt && (i == j || Less(i, j)))))
  }

  ghost predicate IsNewest(leases: map<string, Lease>, ids: set<string>, i: string)
    requires ids <= leases.Keys
  {
    i in ids && forall j | j in ids :: NotNewer(leases, j, i)
  }

  ghost function Newest(leases: map<string, Lease>, ids: set<string>): (i: string)
    requires ids <= leases.Keys && ids != {}
    ensures IsNewest(leases, ids, i)
  {
    var k :| k in ids;
    var rest := ids - {k};
    if rest == {} then
      NotNewerTotal(leases, k, k, k);
      assert forall j | j in ids && j != k :: j in rest;
      k
    else
      var n := Newest(leases, rest);
      if NotNewer(leases, k, n) then n
      else
        NewestExtends(leases, rest, k, n);
        assert ids == rest + {k};
        k
  }

  lemma NotNewerTotal(leases: map<string, Lease>, i: string, j: string, k: string)
    requires i in leases && j in leases && k in leases
    ensures NotNewer(leases, i, i)
    ensures NotNewer(leases, i, j) || NotNewer(leases, j, i)
    ensures NotNewer(leases, i, j) && NotNewer(leases, j, i) ==> i == j
    ensures NotNewer(leases, i, j) && NotNewer(leases, j, k) ==> NotNewer(leases, i, k)
  {
    LessTrichotomy(i, j);
    if Less(i, j) && Less(j, k) { LessTransitive(i, j, k); }
  }

  lemma NewestExtends(leases: map<string, Lease>, rest: set<string>, k: string, n: string)
    requires rest <= leases.Keys && k in leases && IsNewest(leases, rest, n) && !NotNewer(leases, k, n)
    ensures IsNewest(leases, rest + {k}, k)
  {
    forall j | j in rest + {k} ensures NotNewer(leases, j, k) {
      NotNewerTotal(leases, k, n, n);
      NotNewerTotal(leases, j, n, k);
      NotNewerTotal(leases, k, k, k);
    }
  }

  lemma NewestUnique(leases: map<string, Lease>, ids: set<string>, i: string)
    requires ids <= leases.Keys && IsNewest(leases, ids, i)
    ensures ids != {} && Newest(leases, ids) == i
  {
    NotNewerTotal(leases, Newest(leases, ids), i, i);
  }

  ghost function Lookup3(leases: map<string, Lease>, target: string, action: Action, level: Level): Found {
    var ids := ActiveIds(leases, target, action, level);
    if ids == {} then Missing else Hit(leases[Newest(leases, ids)])
  }

  ghost function FindActive(env: Env, w: World, target: string, action: Action, level: Level): (World, Found) {
    (w.(storeCalls := w.storeCalls + 1),
     if env.storeFails(w.storeCalls) then FindError else Lookup3(w.leases, target, action, level))
  }

  function Upsert(env: Env, w: World, lease: Lease): (World, bool) {
    var w1 := w.(storeCalls := w.storeCalls + 1);
    if env.storeFails(w.storeCalls) then (w1, false) else (w1.(leases := w1.leases[lease.id := lease]), true)
  }

  /** Only the status columns of an existing row change. */
  function UpdateStatus(env: Env, w: World, id: string, status: Status): (World, bool) {
    var w1 := w.(storeCalls := w.storeCalls + 1);
    if env.storeFails(w.storeCalls) then (w1, false)
    else (w1.(leases := if id in w1.leases then w1.leases[id := w1.leases[id].(status := status)] else w1.leases), true)
  }

  // ---------------------------------------------------------------- PEP calls
  // The PEP keys its tokens by the lease's fencing key, which for every lease the broker writes is the
  // target string (LeaseTargets.FencingKeyIsTarget).

  predicate ApplyWorks(env: Env, call: nat, active: Option<string>) {
    !env.pepFails(call) && active.Some?
  }

  predicate RevertWorks(env: Env, call: nat, lease: Lease) {
    !env.pepFails(call) && env.names(lease.target, lease.metadata).Some?
  }

  /** A successful apply enforces what is active and records the lease's token as its target's current one. */
  ghost function PepApply(env: Env, w: World, lease: Lease, active: Option<string>): (World, bool) {
    var w1 := w.(pepCalls := w.pepCalls + 1);
    if !ApplyWorks(env, w.pepCalls, active) then (w1, false)
    else (w1.(tokens := w1.tokens[lease.target := lease.token], enforced := w1.enforced + {active.value},
              log := w1.log + [Applied(lease.target, lease.id)]), true)
  }

  /** The remembered token; without one the PEP echoes the lease's own. */
  ghost function CurrentToken(env: Env, w: World, lease: Lease): (World, Option<Token>) {
    (w.(pepCalls := w.pepCalls + 1),
     if env.pepFails(w.pepCalls) then None
     else Some(if lease.target in w.tokens then w.tokens[lease.target] else lease.token))
  }

  /** A successful revert stops enforcing what the lease names, and forgets the token if it is the lease's. */
  ghost function PepRevert(env: Env, w: World, lease: Lease): (World, bool) {
    var name := env.names(lease.target, lease.metadata);
    var ok := RevertWorks(env, w.pepCalls, lease);
    var w1 := w.(pepCalls := w.pepCalls + 1, log := w.log + [RevertCalled(lease.target, lease.id, ok)]);
    if !ok then (w1, false)
    else
      var w2 := w1.(enforced := w1.enforced - {name.value});
      var k := lease.target;
      (if k in w2.tokens && w2.tokens[k] == lease.token then w2.(tokens := w2.tokens - {k}) else w2, true)
  }

  // ---------------------------------------------------------------- gates before an apply

  datatype Gate = GateError | Closed | Open

  ghost function HasActive(env: Env, w: World, target: string, action: Action, levels: seq<Level>): (World, Gate)
    decreases |levels|
  {
    if levels == [] then (w, Closed)
    else
      var (w1, f) := FindActive(env, w, target, action, levels[0]);
      match f
      case FindError => (w1, GateError)
      case Hit(_) => (w1, Open)
      case Missing => HasActive(env, w1, target, action, levels[1..])
  }

  /** Every allowance for this action that names a previous action finds one active on the target. */
  ghost function Prerequisites(env: Env, w: World, action: Action, target: string,
      allowances: seq<Allowance>): (World, Gate)
    decreases |allowances|
  {
    if allowances == [] then (w, Open)
    else
      var (a, rest) := (allowances[0], allowances[1..]);
      if a.action != action || a.requiresPrevious == NoAction then
        Prerequisites(env, w, action, target, rest)
      else
        var (w1, g) := HasActive(env, w, target, a.requiresPrevious, RISING);
        if g == Open then Prerequisites(env, w1, action, target, rest) else (w1, g)
  }

  datatype Scan = ScanError | Scanned(weight: nat)

  /** The greatest strength among the active leases the given pairs find, and `weight`. */
  ghost function Strongest(env: Env, w: World, target: string, pairs: seq<Pair>, weight: nat): (World, Scan)
    decreases |pairs|
  {
    if pairs == [] then (w, Scanned(weight))
    else
      var (w1, f) := FindActive(env, w, target, pairs[0].0, pairs[0].1);
      match f
      case FindError => (w1, ScanError)
      case Missing => Strongest(env, w1, target, pairs[1..], weight)
      case Hit(l) =>
        var s := Strength(l.action, l.level);
        Strongest(env, w1, target, pairs[1..], if s > weight then s else weight)
  }

  ghost function NoStronger(env: Env, w: World, r: Resolution, target: string): (World, Gate) {
    var requested := Strength(r.action, r.level);
    if requested == 0 then (w, Open)
    else
      var (w1, s) := Strongest(env, w, target, Pairs(ActionsWithRequested(r.action), FALLING), 0);
      (w1, if s.ScanError? then GateError else if s.weight > requested then Closed else Open)
  }

  // ---------------------------------------------------------------- apply

  const EXECUTION_PREFIX := "param.execution_"

  predicate ExecutionChanged(existing: map<string, string>, next: map<string, string>) {
    exists k | k in existing.Keys + next.Keys ::
      HasPrefix(k, EXECUTION_PREFIX) && Lookup(existing, k) != Lookup(next, k)
  }

  predicate NeedsLease(r: Resolution) {
    r.allowed && r.level != NoLevel && r.level != Observe && r.ttl > 0
  }

  datatype Outcome =
    | Denied | NoLease | Skipped | Error
    | Granted(id: string) | Renewed(id: string) | RenewalCapped(id: string)

  datatype RenewResult = RenewError | NotRenewed | Kept(outcome: Outcome)

  ghost function Renew(env: Env, w: World, r: Resolution, now: int): (World, RenewResult) {
    var (w1, f) := FindActive(env, w, r.target, r.action, r.level);
    match f
    case FindError => (w1, RenewError)
    case Missing => (w1, NotRenewed)
    case Hit(existing) => RenewFound(env, w1, existing, r, now)
  }

  /** Changed execution parameters retire the lease; a foreign token is a conflict; otherwise extend it. */
  ghost function RenewFound(env: Env, w: World, existing: Lease, r: Resolution, now: int): (World, RenewResult) {
    if ExecutionChanged(existing.metadata, r.metadata) then
      RetireForRenewal(env, w, existing.id, Superseded)
    else
      var (w1, current) := CurrentToken(env, w, existing);
      if current.None? then (w1, RenewError)
      else if current.value != existing.token then RetireForRenewal(env, w1, existing.id, Conflict)
      else if env.policy.maxRenewals > 0 && existing.renewals >= env.policy.maxRenewals
        then (w1, Kept(RenewalCapped(existing.id)))
      else
        var (w2, ok) := Upsert(env, w1, RenewedLease(existing, r, now));
        (w2, if ok then Kept(Renewed(existing.id)) else RenewError)
  }

  ghost function RetireForRenewal(env: Env, w: World, id: string, status: Status): (World, RenewResult) {
    var (w1, ok) := UpdateStatus(env, w, id, status);
    (w1, if ok then NotRenewed else RenewError)
  }

  function RenewedLease(existing: Lease, r: Resolution, now: int): Lease {
    existing.(decisionId := r.decisionId, expiresAt := now + r.ttl, metadata := r.metadata,
              renewals := existing.renewals + 1, status := Active)
  }

  function NewLease(r: Resolution, id: string, now: int): Lease {
    Lease(id, r.decisionId, r.target, r.action, r.level, Pending,
          Token(r.target, r.action, r.level, r.decisionId, id), now, now + r.ttl, r.metadata, 0)
  }

  /** Retire the strictly weaker leases the given pairs find. */
  ghost function Supersede(env: Env, w: World, applied: Lease, pairs: seq<Pair>): (World, bool)
    decreases |pairs|
  {
    if pairs == [] then (w, true)
    else
      var (w1, f) := FindActive(env, w, applied.target, pairs[0].0, pairs[0].1);
      if f.FindError? then (w1, false)
      else if f.Hit? && f.lease.id != applied.id
        && Strength(f.lease.action, f.lease.level) < Strength(applied.action, applied.level) then
        var (w2, ok) := UpdateStatus(env, w1, f.lease.id, Superseded);
        if ok then Supersede(env, w2, applied, pairs[1..]) else (w2, false)
      else
        Supersede(env, w1, applied, pairs[1..])
  }

  ghost function SupersedeWeaker(env: Env, w: World, applied: Lease): (World, bool) {
    if Strength(applied.action, applied.level) == 0 then (w, true)
    else Supersede(env, w, applied, Pairs(ActionsWithRequested(applied.action), RISING))
  }

  /** Journal the intent, call the PEP, activate, then retire weaker leases. */
  ghost function Grant(env: Env, w: World, r: Resolution, id: string, now: int): (World, Outcome) {
    var lease := NewLease(r, id, now);
    var (w1, stored) := Upsert(env, w, lease);
    if !stored then (w1, Error)
    else
      var (w2, applied) := PepApply(env, w1, lease, r.active);
      if !applied then (UpdateStatus(env, w2, id, Failed).0, Error)
      else
        var (w3, activated) := UpdateStatus(env, w2, id, Active);
        if !activated then (w3, Error)
        else
          var (w4, retired) := SupersedeWeaker(env, w3, lease);
          (w4, if retired then Granted(id) else Error)
  }

  /** Both gates, in order. */
  ghost function Gates(env: Env, w: World, r: Resolution, target: string): (World, Gate) {
    var (w1, g) := Prerequisites(env, w, r.action, target, env.policy.allowances);
    if g == Open then NoStronger(env, w1, r, target) else (w1, g)
  }

  ghost function Apply(env: Env, w: World, r: Resolution, id: string, now: int): (World, Outcome) {
    if !r.allowed then (w, Denied)
    else if !NeedsLease(r) then (w, NoLease)
    else
      var (w1, g) := Gates(env, w, r, r.target);
      if g != Open then (w1, if g == GateError then Error else Skipped)
      else
        var (w2, kept) := Renew(env, w1, r, now);
        match kept
        case RenewError => (w2, Error)
        case Kept(o) => (w2, o)
        case NotRenewed => Grant(env, w2, r, id, now)
  }

  // ---------------------------------------------------------------- revert, expiry, reconciliation

  ghost function Revert(env: Env, w: World, lease: Lease): (World, bool) {
    var (w1, current) := CurrentToken(env, w, lease);
    if current.None? then (UpdateStatus(env, w1, lease.id, Failed).0, false)
    else if current.value != lease.token then UpdateStatus(env, w1, lease.id, Conflict)
    else
      var (w2, reverted) := PepRevert(env, w1, lease);
      if !reverted then (UpdateStatus(env, w2, lease.id, Failed).0, false)
      else UpdateStatus(env, w2, lease.id, Reverted)
  }

  ghost function RevertAll(env: Env, w: World, leases: seq<Lease>): (World, bool)
    decreases |leases|
  {
    if leases == [] then (w, true)
    else
      var (w1, ok) := Revert(env, w, leases[0]);
      if ok then RevertAll(env, w1, leases[1..]) else (w1, false)
  }

  /** `listed` is what the store returns for rows of this status, expired at or before `upTo` when given. */
  ghost predicate Lists(leases: map<string, Lease>, listed: seq<Lease>, status: Status, upTo: Option<int>) {
    && (forall i | 0 <= i < |listed| ::
          listed[i].id in leases && leases[listed[i].id] == listed[i] && Selected(listed[i], status, upTo))
    && (forall i, j | 0 <= i < j < |listed| :: listed[i].id != listed[j].id)
    && (forall id | id in leases && Selected(leases[id], status, upTo) ::
          exists i :: 0 <= i < |listed| && listed[i].id == id)
  }

  predicate Selected(l: Lease, status: Status, upTo: Option<int>) {
    l.status == status && (upTo.Some? ==> l.expiresAt <= upTo.value)
  }

  ghost function RevertExpired(env: Env, w: World, listed: seq<Lease>): (World, bool) {
    var w1 := w.(storeCalls := w.storeCalls + 1);
    if env.storeFails(w.storeCalls) then (w1, false) else RevertAll(env, w1, listed)
  }

  ghost function FailAll(env: Env, w: World, leases: seq<Lease>): (World, bool)
    decreases |leases|
  {
    if leases == [] then (w, true)
    else
      var (w1, ok) := UpdateStatus(env, w, leases[0].id, Failed);
      if ok then FailAll(env, w1, leases[1..]) else (w1, false)
  }

  ghost function ReconcilePending(env: Env, w: World, listed: seq<Lease>): (World, bool) {
    var w1 := w.(storeCalls := w.storeCalls + 1);
    if env.storeFails(w.storeCalls) then (w1, false) else FailAll(env, w1, listed)
  }

  // ---------------------------------------------------------------- runs

  /** The autonomy limits can be replaced between any two operations, so each apply has its own. */
  datatype Op =
    | DoApply(r: Resolution, id: string, now: int, policy: Policy)
    | DoExpire(now: int, listed: seq<Lease>)
    | DoReconcile(listed: seq<Lease>)

  /** Fresh random lease ids, and listings that return the selected rows in some order. */
  ghost predicate Enabled(w: World, op: Op) {
    match op
    case DoApply(_, id, _, _) => id !in w.leases
    case DoExpire(now, listed) => Lists(w.leases, listed, Active, Some(now))
    case DoReconcile(listed) => Lists(w.leases, listed, Pending, None)
  }

  function Under(env: Env, policy: Policy): Env {
    env.(policy := policy)
  }

  ghost function Next(env: Env, w: World, op: Op): World {
    match op
    case DoApply(r, id, now, policy) => Apply(Under(env, policy), w, r, id, now).0
    case DoExpire(_, listed) => RevertExpired(env, w, listed).0
    case DoReconcile(listed) => ReconcilePending(env, w, listed).0
  }

  ghost predicate IsRun(env: Env, ops: seq<Op>) {
    ops == [] || (IsRun(env, ops[..|ops| - 1]) && Enabled(After(env, ops[..|ops| - 1]), ops[|ops| - 1]))
  }

  ghost function After(env: Env, ops: seq<Op>): World {
    if ops == [] then EMPTY else Next(env, After(env, ops[..|ops| - 1]), ops[|ops| - 1])
  }
}
