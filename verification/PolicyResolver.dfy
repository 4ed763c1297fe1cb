/** The resolver that authorizes, downgrades or denies a proposed action before any enforcement: ceilings,
    capability allowlist, guardrails, blast radius and autonomy limits, in that order. */
module PolicyResolver {
  import opened Text
  import opened LeaseTargets
  import opened LeaseJournal

  // ---------------------------------------------------------------- policy and proposals

  datatype Ceiling = Uncapped | CapObserve | CapRateLimit | CapRateLimitHard

  datatype Subject = Subject(kind: string, ref: string)

  /** How a list treats a target it cannot classify; `Unspecified` means rejecting hard actions. */
  datatype UnknownBehavior = Unspecified | RejectHardAction | RejectAction | OtherBehavior

  datatype Guardrail = Guardrail(id: string, never: bool, forbidden: seq<Action>, subject: Subject,
      unknown: UnknownBehavior)

  datatype AllowedSubject = AnySubject | UnknownSource | OtherSubject

  datatype Grantee = Grantee(action: Action, subject: AllowedSubject)

  datatype Limit = Limit(action: Action, duration: int)

  datatype Lifecycle = Lifecycle(allow: seq<Grantee>, approvals: seq<Action>, limits: seq<Limit>, requiresAudit: bool)

  datatype Policy = Policy(
    managed: bool, hasPack: bool, ceiling: Ceiling, capabilities: map<Action, bool>, guardrails: seq<Guardrail>,
    lifecycle: Option<Lifecycle>)

  /** The facts the gates read from a proposal's parameters. */
  datatype Parameters = Parameters(
    protected: seq<Subject>, blastUnknown: UnknownBehavior, sourceUnknown: bool, approved: bool, auditReceipt: bool)

  datatype Proposal = Proposal(action: Action, level: Level, target: ActionTarget, parameters: Parameters, ttl: int)

  datatype Reason =
    | NoPolicyPack | MaxActionObserve | CeilingDowngrade | CapabilityMissing(action: Action)
    | GuardrailViolated(id: string) | GuardrailUnknown(id: string) | ProtectedSubject | UnknownTarget
    | SubjectNotAllowed | ApprovalRequired(action: Action) | DurationClamped

  datatype Authorization = Authorization(
    allowed: bool, action: Action, level: Level, parameters: Parameters, ttl: int, reasons: seq<Reason>)

  // ---------------------------------------------------------------- names and subjects

  const AUTO_BLOCK: Action := Other("auto_block")

  function Underscored(s: string): string {
    if s == "" then "" else [if s[0] == ' ' then '_' else s[0]] + Underscored(s[1..])
  }

  /** The action a guardrail author's alias stands for. */
  function FromAlias(name: string): Action {
    if name == "network.flow_deny" || name == "network.block_source" || name == "deny" || name == "network_deny"
      then Deny
    else if name == "block" || name == "temporary_block" then Drop
    else if name == "quarantine" || name == "network_quarantine" then Quarantine
    else if name == "disable_identity" || name == "identity_disable" || name == "identity.disable" then Disable
    else Other(name)
  }

  function Normalize(a: Action): Action {
    match a
    case Other(name) => FromAlias(Underscored(name))
    case _ => a
  }

  predicate IsBlocking(a: Action) {
    a == Deny || a == Drop || a == Quarantine || a == Disable
  }

  predicate ActionMatches(forbidden: Action, action: Action, level: Level) {
    var (f, a) := (Normalize(forbidden), Normalize(action));
    f != NoAction && if f == AUTO_BLOCK then level == Block || IsBlocking(a) else f == a
  }

  predicate IsHardAction(action: Action, level: Level) {
    level == Hard || level == Block || IsBlocking(Normalize(action))
  }

  predicate RejectsUnknown(behavior: UnknownBehavior, action: Action, level: Level) {
    behavior == RejectAction || (behavior != OtherBehavior && IsHardAction(action, level))
  }

  datatype Match = NoMatch | Matched | CannotTell

  function FirstAttr(attrs: map<string, string>, keys: seq<string>): string {
    if keys == [] then ""
    else
      var v := TrimSpace(Lookup(attrs, keys[0]));
      if v != "" then v else FirstAttr(attrs, keys[1..])
  }

  predicate IsSeparator(c: char) {
    c == ',' || c == ' ' || c == ';'
  }

  /** The non-empty runs between separators; `run` is the one being read. */
  function Fields(s: string, run: string): seq<string>
    decreases |s|
  {
    if s == "" then (if run == "" then [] else [run])
    else if IsSeparator(s[0]) then (if run == "" then [] else [run]) + Fields(s[1..], "")
    else Fields(s[1..], run + [s[0]])
  }

  predicate ListContains(values: string, want: string) {
    exists i :: 0 <= i < |Fields(values, "")| && TrimSpace(Fields(values, "")[i]) == want
  }

  const TYPE_KEYS: seq<string> := ["subject_type", "subject.type", "subjectType"]
  const REF_KEYS: seq<string> := ["subject_ref", "subject.ref", "subjectRef"]
  const GROUP_KEYS: seq<string> := ["subject.groups", "subject_groups", "subjectGroups", "group"]

  function SubjectMatch(subject: Subject, target: ActionTarget): Match {
    if subject.kind == "" || subject.ref == "" then NoMatch
    else if target.granularity == "subject"
      && (target.value == subject.ref || target.value == subject.kind + ":" + subject.ref) then Matched
    else
      var (kind, ref) := (FirstAttr(target.attributes, TYPE_KEYS), FirstAttr(target.attributes, REF_KEYS));
      var groups := FirstAttr(target.attributes, GROUP_KEYS);
      if kind != "" || ref != "" then (if kind == subject.kind && ref == subject.ref then Matched else NoMatch)
      else if subject.kind == "group" && groups != ""
        then (if ListContains(groups, subject.ref) then Matched else NoMatch)
      else CannotTell
  }

  // ---------------------------------------------------------------- the gates

  function Capped(ceiling: Ceiling, action: Action, level: Level): (Action, Level) {
    if ceiling == CapRateLimit && (level == Block || level == Hard) then (RateLimit, Soft)
    else if ceiling == CapRateLimitHard && level == Block then (RateLimit, Hard)
    else (action, level)
  }

  predicate Forbids(g: Guardrail, action: Action, level: Level) {
    g.never && exists i :: 0 <= i < |g.forbidden| && ActionMatches(g.forbidden[i], action, level)
  }

  function Violation(g: Guardrail, action: Action, level: Level, target: ActionTarget): Option<Reason> {
    if !Forbids(g, action, level) then None
    else
      match SubjectMatch(g.subject, target)
      case Matched => Some(GuardrailViolated(g.id))
      case CannotTell => if RejectsUnknown(g.unknown, action, level) then Some(GuardrailUnknown(g.id)) else None
      case NoMatch => None
  }

  function FirstViolation(gs: seq<Guardrail>, action: Action, level: Level, target: ActionTarget): Option<Reason> {
    if gs == [] then None
    else
      var v := Violation(gs[0], action, level, target);
      if v.Some? then v else FirstViolation(gs[1..], action, level, target)
  }

  function BlastReason(subjects: seq<Subject>, unknown: UnknownBehavior, action: Action, level: Level,
      target: ActionTarget): Option<Reason> {
    if subjects == [] then None
    else
      match SubjectMatch(subjects[0], target)
      case Matched => Some(ProtectedSubject)
      case CannotTell =>
        if RejectsUnknown(unknown, action, level) then Some(UnknownTarget)
        else BlastReason(subjects[1..], unknown, action, level, target)
      case NoMatch => BlastReason(subjects[1..], unknown, action, level, target)
  }

  const SOURCE_KEYS: seq<string> := ["source_class", "source_selector", "selector"]

  predicate IsUnknownWord(v: string) {
    v == "unknown" || v == "unknown_source"
  }

  predicate SourceIsUnknown(p: Proposal) {
    p.parameters.sourceUnknown
    || exists i :: 0 <= i < |SOURCE_KEYS| && IsUnknownWord(TrimSpace(Lookup(p.target.attributes, SOURCE_KEYS[i])))
  }

  /** Some allowance reserves the action to unknown sources. */
  predicate ReservedToUnknown(allow: seq<Grantee>, action: Action) {
    exists i :: 0 <= i < |allow| && allow[i].action == action && allow[i].subject == UnknownSource
  }

  function Limited(limits: seq<Limit>, action: Action): int {
    if limits == [] then 0
    else if limits[0].action == action && limits[0].duration > 0 then limits[0].duration
    else Limited(limits[1..], action)
  }

  /** The first reason to deny an action that is under the ceiling. */
  function DenyReason(r: Policy, p: Proposal, action: Action, level: Level): Option<Reason> {
    if r.capabilities != map[] && action != NoAction && !(action in r.capabilities && r.capabilities[action])
      then Some(CapabilityMissing(action))
    else if action != NoAction && level != Observe && FirstViolation(r.guardrails, action, level, p.target).Some? then
      FirstViolation(r.guardrails, action, level, p.target)
    else if BlastReason(p.parameters.protected, p.parameters.blastUnknown, action, level, p.target).Some? then
      BlastReason(p.parameters.protected, p.parameters.blastUnknown, action, level, p.target)
    else if r.lifecycle.None? || action == NoAction then None
    else if ReservedToUnknown(r.lifecycle.value.allow, action) && !SourceIsUnknown(p) then Some(SubjectNotAllowed)
    else if action in r.lifecycle.value.approvals && !p.parameters.approved then Some(ApprovalRequired(action))
    else None
  }

  function MaxDuration(r: Policy, action: Action): int {
    if r.lifecycle.None? || action == NoAction then 0 else Limited(r.lifecycle.value.limits, action)
  }

  function Observing(allowed: bool, p: Proposal, reasons: seq<Reason>): Authorization {
    Authorization(allowed, NoAction, Observe, p.parameters, p.ttl, reasons)
  }

  /** An action past every gate: its duration clamped, its audit flag set. */
  function Granted(r: Policy, p: Proposal, action: Action, level: Level): Authorization {
    var limit := MaxDuration(r, action);
    var clamp := limit > 0 && p.ttl > limit;
    Authorization(
      true, action, level,
      if r.lifecycle.Some? && r.lifecycle.value.requiresAudit then p.parameters.(auditReceipt := true)
        else p.parameters,
      if clamp then limit else p.ttl,
      (if (action, level) != (p.action, p.level) then [CeilingDowngrade] else []) + if clamp then [DurationClamped]
        else [])
  }

  function Resolve(r: Policy, p: Proposal): Authorization {
    if !r.managed then Authorization(true, p.action, p.level, p.parameters, p.ttl, [])
    else if !r.hasPack then Observing(true, p, [NoPolicyPack])
    else if r.ceiling == CapObserve then Observing(true, p, if p.level != Observe then [MaxActionObserve] else [])
    else
      var (action, level) := Capped(r.ceiling, p.action, p.level);
      var deny := DenyReason(r, p, action, level);
      if deny.Some? then Observing(false, p, [deny.value]) else Granted(r, p, action, level)
  }

  // ---------------------------------------------------------------- the resolver, step by step

  method Forbidden(g: Guardrail, action: Action, level: Level) returns (forbids: bool)
    ensures forbids == Forbids(g, action, level)
  {
    if !g.never { return false; }
    var i := 0;
    while i < |g.forbidden|
      invariant 0 <= i <= |g.forbidden|
      invariant forall j | 0 <= j < i :: !ActionMatches(g.forbidden[j], action, level)
    {
      if ActionMatches(g.forbidden[i], action, level) { return true; }
      i := i + 1;
    }
    return false;
  }

  method GuardrailDeny(gs: seq<Guardrail>, action: Action, level: Level, target: ActionTarget)
      returns (reason: Option<Reason>)
    ensures reason == if action != NoAction && level != Observe then FirstViolation(gs, action, level, target) else None
  {
    if action == NoAction || level == Observe { return None; }
    var i := 0;
    while i < |gs|
      invariant 0 <= i <= |gs|
      invariant FirstViolation(gs[i..], action, level, target) == FirstViolation(gs, action, level, target)
    {
      assert gs[i..][1..] == gs[i + 1..];
      var forbids := Forbidden(gs[i], action, level);
      if forbids {
        var m := SubjectMatch(gs[i].subject, target);
        if m == Matched { return Some(GuardrailViolated(gs[i].id)); }
        if m == CannotTell && RejectsUnknown(gs[i].unknown, action, level) { return Some(GuardrailUnknown(gs[i].id)); }
      }
      i := i + 1;
    }
    return None;
  }

  method BlastRadiusDeny(p: Proposal, action: Action, level: Level) returns (reason: Option<Reason>)
    ensures reason == BlastReason(p.parameters.protected, p.parameters.blastUnknown, action, level, p.target)
  {
    var subjects := p.parameters.protected;
    var i := 0;
    while i < |subjects|
      invariant 0 <= i <= |subjects|
      invariant BlastReason(subjects[i..], p.parameters.blastUnknown, action, level, p.target)
             == BlastReason(subjects, p.parameters.blastUnknown, action, level, p.target)
    {
      assert subjects[i..][1..] == subjects[i + 1..];
      var m := SubjectMatch(subjects[i], p.target);
      if m == Matched { return Some(ProtectedSubject); }
      if m == CannotTell && RejectsUnknown(p.parameters.blastUnknown, action, level) { return Some(UnknownTarget); }
      i := i + 1;
    }
    return None;
  }

  method SubjectDeny(allow: seq<Grantee>, action: Action, p: Proposal) returns (deny: bool)
    ensures deny == (ReservedToUnknown(allow, action) && !SourceIsUnknown(p))
  {
    var i := 0;
    while i < |allow|
      invariant 0 <= i <= |allow|
      invariant forall j | 0 <= j < i :: !(allow[j].action == action && allow[j].subject == UnknownSource)
    {
      if allow[i].action == action && allow[i].subject == UnknownSource { return !SourceIsUnknown(p); }
      i := i + 1;
    }
    return false;
  }

  method ApprovalDeny(approvals: seq<Action>, action: Action, approved: bool) returns (deny: bool)
    ensures deny == (action in approvals && !approved)
  {
    var i := 0;
    while i < |approvals|
      invariant 0 <= i <= |approvals| && action !in approvals[..i]
    {
      if approvals[i] == action { return !approved; }
      i := i + 1;
    }
    return false;
  }

  method FindLimit(r: Policy, action: Action) returns (limit: int)
    ensures limit == MaxDuration(r, action)
  {
    if r.lifecycle.None? || action == NoAction { return 0; }
    var limits := r.lifecycle.value.limits;
    var i := 0;
    while i < |limits|
      invariant 0 <= i <= |limits|
      invariant Limited(limits[i..], action) == Limited(limits, action)
    {
      assert limits[i..][1..] == limits[i + 1..];
      if limits[i].action == action && limits[i].duration > 0 { return limits[i].duration; }
      i := i + 1;
    }
    return 0;
  }

  /** The gates in order, up to the first that denies. */
  method RunGates(r: Policy, p: Proposal, action: Action, level: Level) returns (reason: Option<Reason>)
    ensures reason == DenyReason(r, p, action, level)
  {
    if r.capabilities != map[] && action != NoAction {
      if !(action in r.capabilities && r.capabilities[action]) { return Some(CapabilityMissing(action)); }
    }
    reason := GuardrailDeny(r.guardrails, action, level, p.target);
    if reason.Some? { return; }
    reason := BlastRadiusDeny(p, action, level);
    if reason.Some? || r.lifecycle.None? || action == NoAction { return; }
    var deny := SubjectDeny(r.lifecycle.value.allow, action, p);
    if deny { return Some(SubjectNotAllowed); }
    deny := ApprovalDeny(r.lifecycle.value.approvals, action, p.parameters.approved);
    if deny { return Some(ApprovalRequired(action)); }
  }

  method Authorize(r: Policy, p: Proposal) returns (base: Authorization)
    ensures base == Resolve(r, p)
  {
    base := Authorization(false, NoAction, NoLevel, p.parameters, p.ttl, []);
    if !r.managed {
      return base.(allowed := true, action := p.action, level := p.level);
    }
    if !r.hasPack {
      return base.(allowed := true, level := Observe, reasons := [NoPolicyPack]);
    }
    var action, level, downgrade := p.action, p.level, [];
    match r.ceiling {
      case CapObserve =>
        base := base.(allowed := true, level := Observe);
        if p.level != Observe { base := base.(reasons := [MaxActionObserve]); }
        return;
      case CapRateLimit =>
        if level == Block || level == Hard { action, level, downgrade := RateLimit, Soft, [CeilingDowngrade]; }
      case CapRateLimitHard =>
        if level == Block { action, level, downgrade := RateLimit, Hard, [CeilingDowngrade]; }
      case Uncapped =>
    }
    var reason := RunGates(r, p, action, level);
    if reason.Some? { return base.(level := Observe, reasons := [reason.value]); }
    var limit := FindLimit(r, action);
    if limit > 0 && base.ttl > limit {
      base := base.(ttl := limit);
      downgrade := downgrade + [DurationClamped];
    }
    if r.lifecycle.Some? && r.lifecycle.value.requiresAudit {
      base := base.(parameters := base.parameters.(auditReceipt := true));
    }
    base := base.(allowed := true, action := action, level := level, reasons := downgrade);
  }

  // ---------------------------------------------------------------- what the resolver guarantees

  /** The order of enforcement levels; names the runtime does not know enforce nothing. */
  function Rank(level: Level): nat {
    match level
    case Soft => 1
    case Hard => 2
    case Block => 3
    case _ => 0
  }

  function CeilingRank(r: Policy): nat {
    if !r.hasPack then 0
    else match r.ceiling
      case CapObserve => 0
      case CapRateLimit => 1
      case CapRateLimitHard => 2
      case Uncapped => 3
  }

  /** Nothing is ever raised: not above the request, not above the ceiling, not for longer; and whatever is
      denied or observed carries no action at all. */
  lemma NeverRaised(r: Policy, p: Proposal)
    ensures var out := Resolve(r, p);
      && Rank(out.level) <= Rank(p.level) && out.ttl <= p.ttl
      && (r.managed ==> Rank(out.level) <= CeilingRank(r))
      && (!out.allowed ==> out.action == NoAction && out.level == Observe && out.reasons != [])
  {
  }

  /** Under a policy pack an authorized action lasts no longer than its limit, is shortened only to it, and
      asks for an audit receipt whenever the lifecycle does. */
  lemma LimitsApplied(r: Policy, p: Proposal)
    requires r.managed && r.hasPack && r.ceiling != CapObserve && Resolve(r, p).allowed
    ensures var (out, limit) := (Resolve(r, p), MaxDuration(r, Resolve(r, p).action));
      && (limit > 0 ==> out.ttl <= limit)
      && (out.ttl != p.ttl ==> limit > 0 && out.ttl == limit && DurationClamped in out.reasons)
      && (r.lifecycle.Some? && r.lifecycle.value.requiresAudit ==> out.parameters.auditReceipt)
  {
    var (action, level) := Capped(r.ceiling, p.action, p.level);
    var reasons := Granted(r, p, action, level).reasons;
    assert Resolve(r, p).ttl != p.ttl ==> reasons[|reasons| - 1] == DurationClamped;
  }

  /** The proposal that repeats what was authorized. */
  function Again(p: Proposal, out: Authorization): Proposal {
    Proposal(out.action, out.level, p.target, out.parameters, out.ttl)
  }

  /** The audit flag plays no part in any gate. */
  lemma GatesRepeat(r: Policy, p: Proposal, out: Authorization)
    requires out.parameters.(auditReceipt := p.parameters.auditReceipt) == p.parameters
    ensures DenyReason(r, Again(p, out), out.action, out.level) == DenyReason(r, p, out.action, out.level)
  {
    assert SourceIsUnknown(Again(p, out)) <==> SourceIsUnknown(p);
  }

  /** Resolving an allowed result again allows the same action, level, duration and parameters. */
  lemma ResolveTwice(r: Policy, p: Proposal)
    requires Resolve(r, p).allowed
    ensures var (out, again) := (Resolve(r, p), Resolve(r, Again(p, Resolve(r, p))));
      again.allowed
      && (again.action, again.level, again.ttl, again.parameters) == (out.action, out.level, out.ttl, out.parameters)
  {
    var out := Resolve(r, p);
    if r.managed && r.hasPack && r.ceiling != CapObserve {
      GatesRepeat(r, p, out);
      CappedTwice(r.ceiling, p.action, p.level);
    }
  }

  lemma CappedTwice(ceiling: Ceiling, action: Action, level: Level)
    ensures var (a, l) := Capped(ceiling, action, level); Capped(ceiling, a, l) == (a, l)
  {
  }

  lemma {:induction false} FirstViolationIff(gs: seq<Guardrail>, action: Action, level: Level, target: ActionTarget)
    ensures FirstViolation(gs, action, level, target).None?
      <==> forall g | g in gs :: Violation(g, action, level, target).None?
  {
    if gs != [] {
      FirstViolationIff(gs[1..], action, level, target);
      assert forall g :: g in gs <==> g == gs[0] || g in gs[1..];
    }
  }

  /** A guardrail stands in the way of an action: its subject matches, or cannot be told and it rejects that. */
  predicate Blocks(g: Guardrail, action: Action, level: Level, target: ActionTarget) {
    Forbids(g, action, level)
    && (SubjectMatch(g.subject, target) == Matched
        || (SubjectMatch(g.subject, target) == CannotTell && RejectsUnknown(g.unknown, action, level)))
  }

  predicate Protects(subject: Subject, p: Proposal, action: Action, level: Level) {
    SubjectMatch(subject, p.target) == Matched
    || (SubjectMatch(subject, p.target) == CannotTell && RejectsUnknown(p.parameters.blastUnknown, action, level))
  }

  lemma {:induction false} BlastIff(subjects: seq<Subject>, p: Proposal, action: Action, level: Level)
    ensures BlastReason(subjects, p.parameters.blastUnknown, action, level, p.target).None?
        <==> forall s | s in subjects :: !Protects(s, p, action, level)
  {
    if subjects != [] {
      BlastIff(subjects[1..], p, action, level);
      assert forall s :: s in subjects <==> s == subjects[0] || s in subjects[1..];
      if Protects(subjects[0], p, action, level) { assert subjects[0] in subjects; }
    }
  }

  /** What an action must meet; a proposal without one meets it trivially. */
  ghost predicate ActionPermitted(r: Policy, p: Proposal, action: Action, level: Level) {
    action != NoAction ==>
      && (r.capabilities != map[] ==> action in r.capabilities && r.capabilities[action])
      && (level != Observe ==> forall g | g in r.guardrails :: !Blocks(g, action, level, p.target))
      && (r.lifecycle.Some? && ReservedToUnknown(r.lifecycle.value.allow, action) ==> SourceIsUnknown(p))
      && (r.lifecycle.Some? && action in r.lifecycle.value.approvals ==> p.parameters.approved)
  }

  /** Every condition of the gates; protected subjects stand in the way of proposals without an action, too. */
  ghost predicate Permitted(r: Policy, p: Proposal, action: Action, level: Level) {
    && ActionPermitted(r, p, action, level)
    && forall s | s in p.parameters.protected :: !Protects(s, p, action, level)
  }

  /** Nothing is gated but in managed mode, with a policy pack, and above the observe ceiling. */
  predicate Gated(r: Policy) {
    r.managed && r.hasPack && r.ceiling != CapObserve
  }

  /** A proposal is allowed exactly when it is not gated or, once capped, its action has the capability, no
      guardrail and no protected subject stands in its way, and the autonomy limits permit it. */
  lemma AllowedIff(r: Policy, p: Proposal)
    ensures var (action, level) := Capped(r.ceiling, p.action, p.level);
      Resolve(r, p).allowed <==> (Gated(r) ==> Permitted(r, p, action, level))
  {
    var (action, level) := Capped(r.ceiling, p.action, p.level);
    FirstViolationIff(r.guardrails, action, level, p.target);
    forall g | g in r.guardrails
      ensures Violation(g, action, level, p.target).None? <==> !Blocks(g, action, level, p.target) { }
    BlastIff(p.parameters.protected, p, action, level);
  }

  /** No authorized enforcement is one a matching guardrail forbids. */
  lemma GuardrailsHold(r: Policy, p: Proposal, g: Guardrail)
    requires r.managed && Resolve(r, p).allowed && g in r.guardrails
    ensures var out := Resolve(r, p);
      out.action != NoAction && out.level != Observe ==> !Blocks(g, out.action, out.level, p.target)
  {
    if Resolve(r, p).action != NoAction { AllowedIff(r, p); }
  }

  /** The rate-limit ceiling caps the level, not the action: a blocking action passes it exactly when it was
      requested, below the hard level, and the other gates permit it. */
  lemma CeilingIsByLevel(r: Policy, p: Proposal)
    requires r.managed && r.hasPack && r.ceiling == CapRateLimit
    ensures IsBlocking(Normalize(Resolve(r, p).action))
        <==> IsBlocking(Normalize(p.action)) && p.level != Hard && p.level != Block
             && Permitted(r, p, p.action, p.level)
  {
    AllowedIff(r, p);
  }

  /** A deployment whose only limit is the rate-limit ceiling. */
  const RATE_LIMITED: Policy := Policy.Policy(true, true, CapRateLimit, map[], [], None)

  /** It lets an access denial at the soft level through unchanged. */
  lemma DenyPassesCeiling(target: ActionTarget, ttl: int)
    ensures var p := Proposal(Deny, Soft, target, Parameters([], Unspecified, false, false, false), ttl);
      Resolve(RATE_LIMITED, p).allowed && Resolve(RATE_LIMITED, p).action == Deny
  {
    var p := Proposal(Deny, Soft, target, Parameters([], Unspecified, false, false, false), ttl);
    CeilingIsByLevel(RATE_LIMITED, p);
    AllowedIff(RATE_LIMITED, p);
  }
}
