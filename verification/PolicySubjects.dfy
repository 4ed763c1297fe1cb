/** What the resolver decides, read off the proposal and the policy alone: whom a target's attributes name, which
    actions a guardrail means, when a proposal is allowed, with what result, and for which reason it is denied. */
module PolicySubjects {
  import opened Text
  import opened LeaseTargets
  import opened LeaseJournal
  import opened PolicyResolver

  type Policy = PolicyResolver.Policy

  // ---------------------------------------------------------------- attributes, read directly

  /** The first spelling whose value is not blank gives its value without the padding; without one it is empty. */
  ghost predicate Gives(attrs: map<string, string>, keys: seq<string>, v: string) {
    if v == "" then forall i | 0 <= i < |keys| :: Trimmed(ValueAt(attrs, keys[i]), "")
    else exists i :: GivesAt(attrs, keys, v, i)
  }

  ghost predicate GivesAt(attrs: map<string, string>, keys: seq<string>, v: string, i: int) {
    && 0 <= i < |keys| && Trimmed(ValueAt(attrs, keys[i]), v)
    && forall j | 0 <= j < i :: Trimmed(ValueAt(attrs, keys[j]), "")
  }

  ghost predicate NamesKind(t: ActionTarget, kind: string) {
    Gives(t.attributes, ["subject_type", "subject.type", "subjectType"], kind)
  }

  ghost predicate NamesRef(t: ActionTarget, ref: string) {
    Gives(t.attributes, ["subject_ref", "subject.ref", "subjectRef"], ref)
  }

  ghost predicate NamesGroups(t: ActionTarget, groups: string) {
    Gives(t.attributes, ["subject.groups", "subject_groups", "subjectGroups", "group"], groups)
  }

  predicate Separates(c: char) {
    c == ',' || c == ' ' || c == ';'
  }

  /** A stretch between two separators or ends. */
  predicate Between(s: string, i: nat, j: nat)
    requires i <= j <= |s|
  {
    && i < j && (forall k | i <= k < j :: !Separates(s[k]))
    && (i == 0 || Separates(s[i - 1])) && (j == |s| || Separates(s[j]))
  }

  /** The list has the member, up to white space around it. */
  ghost predicate Holds(list: string, member: string) {
    exists i, j :: 0 <= i <= j <= |list| && Between(list, i, j) && Trimmed(list[i..j], member)
  }

  // ---------------------------------------------------------------- subjects, read directly

  /** A subject-granular target whose value is the subject, with or without its kind. */
  predicate IsItself(s: Subject, t: ActionTarget) {
    t.granularity == "subject" && (t.value == s.ref || t.value == s.kind + ":" + s.ref)
  }

  ghost predicate NamesNobody(t: ActionTarget) {
    NamesKind(t, "") && NamesRef(t, "")
  }

  /** The target is the subject, its attributes name exactly the subject or, naming nobody, they list the group. */
  ghost predicate Concerns(s: Subject, t: ActionTarget) {
    && s.kind != "" && s.ref != ""
    && (|| IsItself(s, t)
        || (NamesKind(t, s.kind) && NamesRef(t, s.ref))
        || (NamesNobody(t) && s.kind == "group" && exists list :: NamesGroups(t, list) && Holds(list, s.ref)))
  }

  /** Nothing says whom the target concerns: it is not the subject, its attributes name nobody, and, for a group,
      list no groups. */
  ghost predicate Unclear(s: Subject, t: ActionTarget) {
    && s.kind != "" && s.ref != ""
    && !IsItself(s, t) && NamesNobody(t) && (s.kind == "group" ==> NamesGroups(t, ""))
  }

  // ---------------------------------------------------------------- actions, read directly

  function Joined(name: string): string {
    seq(|name|, i requires 0 <= i < |name| => if name[i] == ' ' then '_' else name[i])
  }

  /** The action a name in a guardrail stands for. */
  function Meant(a: Action): Action {
    if !a.Other? then a
    else
      var name := Joined(a.name);
      if name in {"network.flow_deny", "network.block_source", "deny", "network_deny"} then Deny
      else if name in {"block", "temporary_block"} then Drop
      else if name in {"quarantine", "network_quarantine"} then Quarantine
      else if name in {"disable_identity", "identity_disable", "identity.disable"} then Disable
      else Other(name)
  }

  predicate Stops(a: Action) {
    Meant(a) in {Deny, Drop, Quarantine, Disable}
  }

  /** The guardrail's entry covers the action: the same action, or any automatic block. */
  predicate Covers(entry: Action, action: Action, level: Level) {
    || (Meant(entry) == Meant(action) && Meant(entry) != NoAction && Meant(entry) != Other("auto_block"))
    || (Meant(entry) == Other("auto_block") && (level == Block || Stops(action)))
  }

  ghost predicate Prohibits(g: Guardrail, action: Action, level: Level) {
    g.never && exists entry :: entry in g.forbidden && Covers(entry, action, level)
  }

  /** An unclear target is rejected for any action when the list says so, and for a hard one unless it says
      something else. */
  predicate Refuses(behavior: UnknownBehavior, action: Action, level: Level) {
    || behavior == RejectAction
    || (behavior in {Unspecified, RejectHardAction} && (level == Hard || level == Block || Stops(action)))
  }

  /** The guardrail stands in the way of the action. */
  ghost predicate Hinders(g: Guardrail, action: Action, level: Level, t: ActionTarget) {
    Prohibits(g, action, level)
    && (Concerns(g.subject, t) || (Unclear(g.subject, t) && Refuses(g.unknown, action, level)))
  }

  /** The protected subject stands in the way of the action. */
  ghost predicate Shields(s: Subject, p: Proposal, action: Action, level: Level) {
    Concerns(s, p.target) || (Unclear(s, p.target) && Refuses(p.parameters.blastUnknown, action, level))
  }

  // ---------------------------------------------------------------- attributes and lists

  lemma {:induction false} FirstAttrGives(attrs: map<string, string>, keys: seq<string>, v: string)
    ensures FirstAttr(attrs, keys) == v <==> Gives(attrs, keys, v)
  {
    if keys != [] {
      var (rest, first) := (keys[1..], TrimSpace(Lookup(attrs, keys[0])));
      TrimExactly(ValueAt(attrs, keys[0]), v);
      TrimExactly(ValueAt(attrs, keys[0]), "");
      if first == "" {
        FirstAttrGives(attrs, rest, v);
        GivesLater(attrs, keys, v);
      } else {
        GivesFirst(attrs, keys, v, first);
      }
    }
  }

  lemma GivesFirst(attrs: map<string, string>, keys: seq<string>, v: string, first: string)
    requires keys != [] && first == TrimSpace(ValueAt(attrs, keys[0])) && first != ""
    ensures first == v <==> Gives(attrs, keys, v)
  {
    TrimExactly(ValueAt(attrs, keys[0]), v);
    TrimExactly(ValueAt(attrs, keys[0]), "");
    if v == first { assert GivesAt(attrs, keys, v, 0); }
    var value := ValueAt(attrs, keys[0]);
    forall i | GivesAt(attrs, keys, v, i) ensures i == 0 { assert i > 0 ==> Trimmed(value, ""); }
  }

  lemma GivesLater(attrs: map<string, string>, keys: seq<string>, v: string)
    requires keys != [] && Trimmed(ValueAt(attrs, keys[0]), "")
    ensures Gives(attrs, keys[1..], v) <==> Gives(attrs, keys, v)
  {
    var rest := keys[1..];
    TrimExactly(ValueAt(attrs, keys[0]), "");
    TrimExactly(ValueAt(attrs, keys[0]), v);
    assert forall i | 0 <= i < |rest| :: rest[i] == keys[i + 1];
    if v == "" {
      if Gives(attrs, rest, v) {
        forall i | 0 <= i < |keys| ensures Trimmed(ValueAt(attrs, keys[i]), "") {
          if i > 0 { assert Trimmed(ValueAt(attrs, rest[i - 1]), ""); }
        }
      }
    } else {
      if i :| GivesAt(attrs, rest, v, i) {
        forall j | 0 <= j < i + 1 ensures Trimmed(ValueAt(attrs, keys[j]), "") {
          if j > 0 { assert Trimmed(ValueAt(attrs, rest[j - 1]), ""); }
        }
        assert GivesAt(attrs, keys, v, i + 1);
      }
      if i :| GivesAt(attrs, keys, v, i) {
        assert i > 0 && Trimmed(ValueAt(attrs, rest[i - 1]), v);
        forall j | 0 <= j < i - 1 ensures Trimmed(ValueAt(attrs, rest[j]), "") { assert rest[j] == keys[j + 1]; }
        assert GivesAt(attrs, rest, v, i - 1);
      }
    }
  }

  /** A field of the text is a stretch between separators. */
  ghost predicate IsField(all: string, f: string) {
    exists i, j :: 0 <= i <= j <= |all| && Between(all, i, j) && all[i..j] == f
  }

  predicate Unseparated(run: string) {
    forall k | 0 <= k < |run| :: !Separates(run[k])
  }

  lemma WholeField(run: string, f: string)
    requires Unseparated(run)
    ensures IsField(run, f) <==> f == run && run != ""
  {
    if run != "" { assert Between(run, 0, |run|) && run[0..|run|] == run; }
    if i, j :| 0 <= i <= j <= |run| && Between(run, i, j) && run[i..j] == f {
      assert i == 0 && j == |run|;
    }
  }

  lemma SliceStays(before: string, rest: string, i: nat, j: nat)
    requires i <= j <= |rest|
    ensures (before + rest)[|before| + i..|before| + j] == rest[i..j]
  {
    assert (before + rest)[|before|..] == rest;
    assert (before + rest)[|before| + i..|before| + j] == (before + rest)[|before|..][i..j];
  }

  lemma FieldStays(before: string, rest: string, i: nat, j: nat)
    requires i <= j <= |rest| && before != "" && Separates(before[|before| - 1])
    ensures Between(rest, i, j) <==> Between(before + rest, |before| + i, |before| + j)
    ensures (before + rest)[|before| + i..|before| + j] == rest[i..j]
  {
    var (all, n) := (before + rest, |before|);
    SliceStays(before, rest, i, j);
    if Between(all, n + i, n + j) {
      forall k | i <= k < j ensures !Separates(rest[k]) { assert !Separates(all[n + k]); }
    }
    if Between(rest, i, j) {
      forall k | n + i <= k < n + j ensures !Separates(all[k]) { assert !Separates(rest[k - n]); }
    }
  }

  lemma FirstField(run: string, c: char, rest: string, i: nat, j: nat)
    requires Unseparated(run) && Separates(c) && i <= j <= |run| + 1 + |rest| && i <= |run|
    ensures var all := run + [c] + rest;
      Between(all, i, j) <==> i == 0 && j == |run| && run != ""
    ensures (run + [c] + rest)[0..|run|] == run
  {
    var all := run + [c] + rest;
    assert Separates(all[|run|]) && forall k | 0 <= k < |run| :: !Separates(all[k]) by {
      assert forall k | 0 <= k < |run| :: all[k] == run[k];
    }
  }

  lemma LaterField(before: string, rest: string, f: string)
    requires before != "" && Separates(before[|before| - 1]) && IsField(rest, f)
    ensures IsField(before + rest, f)
  {
    var i, j :| 0 <= i <= j <= |rest| && Between(rest, i, j) && rest[i..j] == f;
    FieldStays(before, rest, i, j);
  }

  lemma CutsInto(run: string, c: char, rest: string, f: string)
    requires Unseparated(run) && Separates(c) && IsField(run + [c] + rest, f)
    ensures (f == run && run != "") || IsField(rest, f)
  {
    var (all, n) := (run + [c] + rest, |run| + 1);
    var i, j :| 0 <= i <= j <= |all| && Between(all, i, j) && all[i..j] == f;
    if i < n {
      FirstField(run, c, rest, i, j);
    } else {
      FieldStays(run + [c], rest, i - n, j - n);
    }
  }

  lemma CutField(run: string, c: char, rest: string, f: string)
    requires Unseparated(run) && Separates(c)
    ensures IsField(run + [c] + rest, f) <==> (f == run && run != "") || IsField(rest, f)
  {
    FirstField(run, c, rest, 0, |run|);
    if IsField(rest, f) { LaterField(run + [c], rest, f); }
    if IsField(run + [c] + rest, f) { CutsInto(run, c, rest, f); }
  }

  lemma {:induction false} FieldsAre(s: string, run: string, f: string)
    requires Unseparated(run)
    ensures f in Fields(s, run) <==> IsField(run + s, f)
    decreases |s|
  {
    if s == "" {
      assert run + s == run;
      WholeField(run, f);
    } else if IsSeparator(s[0]) {
      assert run + s == run + [s[0]] + s[1..] && "" + s[1..] == s[1..];
      CutField(run, s[0], s[1..], f);
      FieldsAre(s[1..], "", f);
    } else {
      assert run + s == (run + [s[0]]) + s[1..];
      FieldsAre(s[1..], run + [s[0]], f);
    }
  }

  lemma ListHolds(list: string, member: string)
    ensures ListContains(list, member) <==> Holds(list, member)
  {
    assert "" + list == list;
    if ListContains(list, member) {
      var i :| 0 <= i < |Fields(list, "")| && TrimSpace(Fields(list, "")[i]) == member;
      FieldsAre(list, "", Fields(list, "")[i]);
      TrimExactly(Fields(list, "")[i], member);
    }
    if i, j :| 0 <= i <= j <= |list| && Between(list, i, j) && Trimmed(list[i..j], member) {
      FieldsAre(list, "", list[i..j]);
      TrimExactly(list[i..j], member);
    }
  }

  // ---------------------------------------------------------------- subjects

  lemma AttributesGive(t: ActionTarget, v: string)
    ensures FirstAttr(t.attributes, TYPE_KEYS) == v <==> NamesKind(t, v)
    ensures FirstAttr(t.attributes, REF_KEYS) == v <==> NamesRef(t, v)
    ensures FirstAttr(t.attributes, GROUP_KEYS) == v <==> NamesGroups(t, v)
  {
    FirstAttrGives(t.attributes, ["subject_type", "subject.type", "subjectType"], v);
    FirstAttrGives(t.attributes, ["subject_ref", "subject.ref", "subjectRef"], v);
    FirstAttrGives(t.attributes, ["subject.groups", "subject_groups", "subjectGroups", "group"], v);
  }

  lemma ListsSubject(s: Subject, t: ActionTarget)
    ensures var list := FirstAttr(t.attributes, GROUP_KEYS);
      (exists l :: NamesGroups(t, l) && Holds(l, s.ref)) <==> ListContains(list, s.ref)
  {
    var list := FirstAttr(t.attributes, GROUP_KEYS);
    AttributesGive(t, list);
    ListHolds(list, s.ref);
    if l :| NamesGroups(t, l) && Holds(l, s.ref) { AttributesGive(t, l); }
  }

  lemma NothingListed(ref: string)
    ensures !ListContains("", ref)
  {
  }

  lemma SubjectNamed(s: Subject, t: ActionTarget)
    ensures (FirstAttr(t.attributes, TYPE_KEYS) == s.kind && FirstAttr(t.attributes, REF_KEYS) == s.ref)
        <==> NamesKind(t, s.kind) && NamesRef(t, s.ref)
  {
    AttributesGive(t, s.kind);
    AttributesGive(t, s.ref);
  }

  lemma NobodyNamed(t: ActionTarget)
    ensures (FirstAttr(t.attributes, TYPE_KEYS) == "" && FirstAttr(t.attributes, REF_KEYS) == "") <==> NamesNobody(t)
    ensures FirstAttr(t.attributes, GROUP_KEYS) == "" <==> NamesGroups(t, "")
  {
    AttributesGive(t, "");
  }

  lemma MatchedWhen(s: Subject, t: ActionTarget, kind: string, ref: string, list: string)
    requires kind == FirstAttr(t.attributes, TYPE_KEYS) && ref == FirstAttr(t.attributes, REF_KEYS)
    requires list == FirstAttr(t.attributes, GROUP_KEYS)
    ensures SubjectMatch(s, t) == Matched <==>
      && s.kind != "" && s.ref != ""
      && (|| IsItself(s, t) || (kind == s.kind && ref == s.ref)
          || (kind == "" && ref == "" && s.kind == "group" && ListContains(list, s.ref)))
  {
    NothingListed(s.ref);
  }

  lemma UnclearWhen(s: Subject, t: ActionTarget, kind: string, ref: string, list: string)
    requires kind == FirstAttr(t.attributes, TYPE_KEYS) && ref == FirstAttr(t.attributes, REF_KEYS)
    requires list == FirstAttr(t.attributes, GROUP_KEYS)
    ensures SubjectMatch(s, t) == CannotTell <==>
      && s.kind != "" && s.ref != "" && !IsItself(s, t) && kind == "" && ref == "" && (s.kind == "group" ==> list == "")
  {
  }

  lemma MatchMeans(s: Subject, t: ActionTarget)
    ensures SubjectMatch(s, t) == Matched <==> Concerns(s, t)
    ensures SubjectMatch(s, t) == CannotTell <==> Unclear(s, t)
  {
    var (kind, ref) := (FirstAttr(t.attributes, TYPE_KEYS), FirstAttr(t.attributes, REF_KEYS));
    MatchedWhen(s, t, kind, ref, FirstAttr(t.attributes, GROUP_KEYS));
    UnclearWhen(s, t, kind, ref, FirstAttr(t.attributes, GROUP_KEYS));
    SubjectNamed(s, t);
    NobodyNamed(t);
    ListsSubject(s, t);
  }

  // ---------------------------------------------------------------- actions

  lemma {:induction false} UnderscoredJoins(s: string)
    ensures Underscored(s) == Joined(s)
  {
    if s != "" {
      UnderscoredJoins(s[1..]);
      assert Joined(s) == [Joined(s)[0]] + Joined(s[1..]);
    }
  }

  lemma NormalizeMeans(a: Action)
    ensures Normalize(a) == Meant(a)
  {
    if a.Other? { UnderscoredJoins(a.name); }
  }

  lemma MatchesCovers(entry: Action, action: Action, level: Level)
    ensures ActionMatches(entry, action, level) <==> Covers(entry, action, level)
  {
    NormalizeMeans(entry);
    NormalizeMeans(action);
  }

  lemma ForbidsMeans(g: Guardrail, action: Action, level: Level)
    ensures Forbids(g, action, level) <==> Prohibits(g, action, level)
  {
    forall entry: Action { MatchesCovers(entry, action, level); }
    if entry :| entry in g.forbidden && Covers(entry, action, level) {
      var i :| 0 <= i < |g.forbidden| && g.forbidden[i] == entry;
    }
  }

  lemma RejectsMeans(behavior: UnknownBehavior, action: Action, level: Level)
    ensures RejectsUnknown(behavior, action, level) <==> Refuses(behavior, action, level)
  {
    NormalizeMeans(action);
  }

  lemma BlocksMeans(g: Guardrail, action: Action, level: Level, t: ActionTarget)
    ensures Blocks(g, action, level, t) <==> Hinders(g, action, level, t)
  {
    ForbidsMeans(g, action, level);
    MatchMeans(g.subject, t);
    RejectsMeans(g.unknown, action, level);
  }

  lemma ProtectsMeans(s: Subject, p: Proposal, action: Action, level: Level)
    ensures Protects(s, p, action, level) <==> Shields(s, p, action, level)
  {
    MatchMeans(s, p.target);
    RejectsMeans(p.parameters.blastUnknown, action, level);
  }

  // ---------------------------------------------------------------- guardrails hold, and spare everybody else

  /** In managed mode nothing a guardrail prohibits is enforced on a target that concerns its subject. */
  lemma SubjectsAreSafe(r: Policy, p: Proposal, g: Guardrail)
    requires r.managed && g in r.guardrails && Concerns(g.subject, p.target)
    ensures var out := Resolve(r, p);
      out.action == NoAction || out.level == Observe || !Prohibits(g, out.action, out.level)
  {
    if Resolve(r, p).allowed { GuardrailsHold(r, p, g); }
    BlocksMeans(g, Resolve(r, p).action, Resolve(r, p).level, p.target);
  }

  lemma OneViolation(g: Guardrail, action: Action, level: Level, t: ActionTarget)
    ensures Violation(g, action, level, t) ==
      if !Hinders(g, action, level, t) then None
      else if Concerns(g.subject, t) then Some(GuardrailViolated(g.id)) else Some(GuardrailUnknown(g.id))
  {
    BlocksMeans(g, action, level, t);
    MatchMeans(g.subject, t);
    ForbidsMeans(g, action, level);
  }

  lemma {:induction false} SkippedGuardrail(gs: seq<Guardrail>, i: nat, action: Action, level: Level, t: ActionTarget)
    requires i < |gs| && !Hinders(gs[i], action, level, t)
    ensures FirstViolation(gs[..i] + gs[i + 1..], action, level, t) == FirstViolation(gs, action, level, t)
  {
    if i == 0 {
      assert gs[..i] + gs[i + 1..] == gs[1..];
      OneViolation(gs[0], action, level, t);
    } else {
      assert (gs[..i] + gs[i + 1..])[1..] == gs[1..][..i - 1] + gs[1..][i..];
      SkippedGuardrail(gs[1..], i - 1, action, level, t);
    }
  }

  /** A guardrail that does not stand in the way of what is asked for decides nothing: without it, the resolution
      is the same. */
  lemma OnlyHinderingMatters(r: Policy, p: Proposal, i: nat)
    requires i < |r.guardrails|
    requires var (action, level) := Asked(r, p);
      !Hinders(r.guardrails[i], action, level, p.target)
    ensures Resolve(r.(guardrails := r.guardrails[..i] + r.guardrails[i + 1..]), p) == Resolve(r, p)
  {
    var (action, level) := Asked(r, p);
    CappedIsAsked(r, p);
    SkippedGuardrail(r.guardrails, i, action, level, p.target);
    SameDenial(r, r.guardrails[..i] + r.guardrails[i + 1..], p, action, level);
  }

  lemma SameDenial(r: Policy, gs: seq<Guardrail>, p: Proposal, action: Action, level: Level)
    requires FirstViolation(gs, action, level, p.target) == FirstViolation(r.guardrails, action, level, p.target)
    ensures DenyReason(r.(guardrails := gs), p, action, level) == DenyReason(r, p, action, level)
  {
  }

  /** Above all for a target whose attributes name somebody else. */
  lemma OthersAreSpared(r: Policy, p: Proposal, i: nat, kind: string, ref: string)
    requires i < |r.guardrails| && !IsItself(r.guardrails[i].subject, p.target)
    requires NamesKind(p.target, kind) && NamesRef(p.target, ref) && (kind != "" || ref != "")
    requires r.guardrails[i].subject != Subject(kind, ref)
    ensures Resolve(r.(guardrails := r.guardrails[..i] + r.guardrails[i + 1..]), p) == Resolve(r, p)
  {
    NamedOnce(p.target, kind, ref, r.guardrails[i].subject.kind, r.guardrails[i].subject.ref);
    NamedOnce(p.target, kind, ref, "", "");
    OnlyHinderingMatters(r, p, i);
  }

  /** An unclear target is none that the subject concerns, and what a guardrail prohibits is denied on it exactly
      as far as the guardrail refuses unclear targets: one that does not decides nothing. */
  lemma UnclearDecides(r: Policy, p: Proposal, i: nat)
    requires r.managed && r.hasPack && r.ceiling != CapObserve && i < |r.guardrails|
    requires var ((action, level), g) := (Asked(r, p), r.guardrails[i]);
      action != NoAction && level != Observe && Prohibits(g, action, level) && Unclear(g.subject, p.target)
    ensures var ((action, level), g) := (Asked(r, p), r.guardrails[i]);
      && !Concerns(g.subject, p.target)
      && (if Refuses(g.unknown, action, level) then !Resolve(r, p).allowed
          else Resolve(r.(guardrails := r.guardrails[..i] + r.guardrails[i + 1..]), p) == Resolve(r, p))
  {
    var ((action, level), g) := (Asked(r, p), r.guardrails[i]);
    MatchMeans(g.subject, p.target);
    if Refuses(g.unknown, action, level) {
      AllowedExactly(r, p);
      assert HinderedBy(r, p, action, level, i);
    } else {
      OnlyHinderingMatters(r, p, i);
    }
  }

  lemma NamedOnce(t: ActionTarget, kind: string, ref: string, kind': string, ref': string)
    requires NamesKind(t, kind) && NamesRef(t, ref)
    ensures NamesKind(t, kind') ==> kind' == kind
    ensures NamesRef(t, ref') ==> ref' == ref
  {
    AttributesGive(t, kind);
    AttributesGive(t, kind');
    AttributesGive(t, ref);
    AttributesGive(t, ref');
  }

  // ---------------------------------------------------------------- the whole decision

  /** What is asked for under the ceiling: the rate-limit ceilings turn levels above theirs into a rate limit. */
  function Asked(r: Policy, p: Proposal): (Action, Level) {
    match r.ceiling
    case CapRateLimit => if p.level in {Hard, Block} then (RateLimit, Soft) else (p.action, p.level)
    case CapRateLimitHard => if p.level in {Block} then (RateLimit, Hard) else (p.action, p.level)
    case _ => (p.action, p.level)
  }

  predicate Capable(r: Policy, action: Action) {
    |r.capabilities| > 0 ==> action in r.capabilities && r.capabilities[action]
  }

  ghost predicate HinderedBy(r: Policy, p: Proposal, action: Action, level: Level, i: nat) {
    i < |r.guardrails| && level != Observe && Hinders(r.guardrails[i], action, level, p.target)
  }

  ghost predicate ShieldedBy(p: Proposal, action: Action, level: Level, i: nat) {
    i < |p.parameters.protected| && Shields(p.parameters.protected[i], p, action, level)
  }

  /** The first trimmed spelling or the parameters say that the source is unknown. */
  ghost predicate FromUnknown(p: Proposal) {
    || p.parameters.sourceUnknown
    || exists k, v :: k in {"source_class", "source_selector", "selector"} && v in {"unknown", "unknown_source"}
         && Trimmed(ValueAt(p.target.attributes, k), v)
  }

  ghost predicate Reserved(r: Policy, action: Action) {
    r.lifecycle.Some? && Grantee(action, UnknownSource) in r.lifecycle.value.allow
  }

  predicate NeedsApproval(r: Policy, action: Action) {
    r.lifecycle.Some? && action in r.lifecycle.value.approvals
  }

  ghost predicate Hindered(r: Policy, p: Proposal, action: Action, level: Level) {
    exists i: nat :: HinderedBy(r, p, action, level, i)
  }

  ghost predicate Shielded(p: Proposal, action: Action, level: Level) {
    exists i: nat :: ShieldedBy(p, action, level, i)
  }

  /** Nothing stands in the way. */
  ghost predicate Free(r: Policy, p: Proposal, action: Action, level: Level) {
    && !Shielded(p, action, level)
    && (action != NoAction ==>
          && Capable(r, action) && !Hindered(r, p, action, level)
          && (Reserved(r, action) ==> FromUnknown(p))
          && (NeedsApproval(r, action) ==> p.parameters.approved))
  }

  lemma HinderedIff(r: Policy, p: Proposal, action: Action, level: Level)
    ensures Hindered(r, p, action, level)
        <==> level != Observe && exists g :: g in r.guardrails && Blocks(g, action, level, p.target)
  {
    forall g: Guardrail { BlocksMeans(g, action, level, p.target); }
    if i: nat :| HinderedBy(r, p, action, level, i) { assert Blocks(r.guardrails[i], action, level, p.target); }
    if g :| level != Observe && g in r.guardrails && Blocks(g, action, level, p.target) {
      var i :| 0 <= i < |r.guardrails| && r.guardrails[i] == g;
      assert HinderedBy(r, p, action, level, i);
    }
  }

  lemma ShieldedIff(p: Proposal, action: Action, level: Level)
    ensures Shielded(p, action, level) <==> exists s :: s in p.parameters.protected && Protects(s, p, action, level)
  {
    forall s: Subject { ProtectsMeans(s, p, action, level); }
    var subjects := p.parameters.protected;
    if i: nat :| ShieldedBy(p, action, level, i) { assert Protects(subjects[i], p, action, level); }
    if s :| s in subjects && Protects(s, p, action, level) {
      var i :| 0 <= i < |subjects| && subjects[i] == s;
      assert ShieldedBy(p, action, level, i);
    }
  }

  lemma UnknownWord(attrs: map<string, string>, k: string)
    ensures IsUnknownWord(TrimSpace(Lookup(attrs, k)))
        <==> exists v :: v in {"unknown", "unknown_source"} && Trimmed(ValueAt(attrs, k), v)
  {
    TrimExactly(ValueAt(attrs, k), "unknown");
    TrimExactly(ValueAt(attrs, k), "unknown_source");
  }

  lemma UnknownIff(p: Proposal)
    ensures SourceIsUnknown(p) <==> FromUnknown(p)
  {
    var attrs := p.target.attributes;
    assert SOURCE_KEYS == ["source_class", "source_selector", "selector"];
    forall k: string { UnknownWord(attrs, k); }
    if i :| 0 <= i < |SOURCE_KEYS| && IsUnknownWord(TrimSpace(Lookup(attrs, SOURCE_KEYS[i]))) {
      var v :| v in {"unknown", "unknown_source"} && Trimmed(ValueAt(attrs, SOURCE_KEYS[i]), v);
      assert SOURCE_KEYS[i] in {"source_class", "source_selector", "selector"};
    }
    if k, v :|
      k in {"source_class", "source_selector", "selector"} && v in {"unknown", "unknown_source"}
      && Trimmed(ValueAt(attrs, k), v)
    {
      assert k in SOURCE_KEYS;
      var i :| 0 <= i < |SOURCE_KEYS| && SOURCE_KEYS[i] == k;
      assert IsUnknownWord(TrimSpace(Lookup(attrs, SOURCE_KEYS[i])));
    }
  }

  lemma ReservedIff(r: Policy, action: Action)
    requires r.lifecycle.Some?
    ensures ReservedToUnknown(r.lifecycle.value.allow, action) <==> Reserved(r, action)
  {
    var allow := r.lifecycle.value.allow;
    if Reserved(r, action) {
      var i :| 0 <= i < |allow| && allow[i] == Grantee(action, UnknownSource);
    }
  }

  lemma CappedIsAsked(r: Policy, p: Proposal)
    ensures Capped(r.ceiling, p.action, p.level) == Asked(r, p)
  {
  }

  lemma CapableIff(r: Policy, action: Action)
    ensures Capable(r, action) <==> (r.capabilities != map[] ==> action in r.capabilities && r.capabilities[action])
  {
    if |r.capabilities| == 0 { assert r.capabilities == map[]; }
  }

  lemma PermittedIff(r: Policy, p: Proposal, action: Action, level: Level)
    ensures Permitted(r, p, action, level) <==> Free(r, p, action, level)
  {
    HinderedIff(r, p, action, level);
    ShieldedIff(p, action, level);
    UnknownIff(p);
    CapableIff(r, action);
    if r.lifecycle.Some? { ReservedIff(r, action); }
  }

  /** A proposal is allowed exactly when nothing stands in the way of what is asked for; outside managed mode,
      without a pack and under the observe ceiling nothing is asked for at all. */
  lemma AllowedExactly(r: Policy, p: Proposal)
    ensures var (action, level) := Asked(r, p);
      Resolve(r, p).allowed <==> (r.managed && r.hasPack && r.ceiling != CapObserve ==> Free(r, p, action, level))
  {
    var (action, level) := Asked(r, p);
    AllowedIff(r, p);
    PermittedIff(r, p, action, level);
  }

  /** The time limit of the action: the first positive one named for it. */
  ghost predicate LimitIs(r: Policy, action: Action, duration: int) {
    r.lifecycle.Some? && action != NoAction && exists i :: LimitAt(r.lifecycle.value.limits, action, duration, i)
  }

  predicate LimitAt(limits: seq<Limit>, action: Action, duration: int, i: int) {
    && 0 <= i < |limits| && limits[i] == Limit(action, duration) && duration > 0
    && forall j | 0 <= j < i :: limits[j].action == action ==> limits[j].duration <= 0
  }

  lemma {:induction false} LimitedIs(limits: seq<Limit>, action: Action, duration: int)
    ensures duration > 0 ==> (Limited(limits, action) == duration <==> exists i :: LimitAt(limits, action, duration, i))
    ensures Limited(limits, action) >= 0
  {
    if limits != [] {
      var rest := limits[1..];
      LimitedIs(rest, action, duration);
      assert forall i | 0 <= i < |rest| :: rest[i] == limits[i + 1];
      if limits[0].action == action && limits[0].duration > 0 {
        if limits[0].duration == duration { assert LimitAt(limits, action, duration, 0); }
      } else {
        if i :| LimitAt(rest, action, duration, i) { assert LimitAt(limits, action, duration, i + 1); }
        if i :| LimitAt(limits, action, duration, i) { assert LimitAt(rest, action, duration, i - 1); }
      }
    }
  }

  lemma MaxDurationIs(r: Policy, action: Action, duration: int)
    requires duration > 0
    ensures MaxDuration(r, action) == duration <==> LimitIs(r, action, duration)
    ensures MaxDuration(r, action) >= 0
  {
    if r.lifecycle.Some? { LimitedIs(r.lifecycle.value.limits, action, duration); }
  }

  /** What is authorized: what was asked for, cut to its limit, with the audit flag when the lifecycle wants it;
      under the observe ceiling and without a pack nothing but observing. */
  lemma AllowedMeans(r: Policy, p: Proposal)
    requires Resolve(r, p).allowed
    ensures var (out, asked) := (Resolve(r, p), Asked(r, p));
      if !r.managed then
        (out.action, out.level, out.ttl, out.parameters, out.reasons) == (p.action, p.level, p.ttl, p.parameters, [])
      else if !r.hasPack || r.ceiling == CapObserve then
        && (out.action, out.level, out.ttl, out.parameters) == (NoAction, Observe, p.ttl, p.parameters)
        && out.reasons == (if !r.hasPack then [NoPolicyPack] else if p.level == Observe then [] else [MaxActionObserve])
      else
        && (out.action, out.level) == asked
        && (forall d | LimitIs(r, out.action, d) :: out.ttl == if p.ttl > d then d else p.ttl)
        && ((forall d :: !LimitIs(r, out.action, d)) ==> out.ttl == p.ttl)
        && out.parameters == p.parameters.(auditReceipt :=
             p.parameters.auditReceipt || (r.lifecycle.Some? && r.lifecycle.value.requiresAudit))
        && (CeilingDowngrade in out.reasons <==> asked != (p.action, p.level))
        && (DurationClamped in out.reasons <==> out.ttl != p.ttl) && |out.reasons| <= 2
  {
    if r.managed && r.hasPack && r.ceiling != CapObserve {
      var (action, level) := Asked(r, p);
      CappedIsAsked(r, p);
      var limit := MaxDuration(r, action);
      MaxDurationIs(r, action, 1);
      if limit > 0 { MaxDurationIs(r, action, limit); }
      forall d | LimitIs(r, action, d) ensures d == limit { MaxDurationIs(r, action, d); }
    }
  }

  lemma {:induction false} FirstViolationIs(gs: seq<Guardrail>, action: Action, level: Level, t: ActionTarget, i: nat)
    requires i < |gs| && Hinders(gs[i], action, level, t)
    requires forall j | 0 <= j < i :: !Hinders(gs[j], action, level, t)
    ensures FirstViolation(gs, action, level, t)
         == Some(if Concerns(gs[i].subject, t) then GuardrailViolated(gs[i].id) else GuardrailUnknown(gs[i].id))
  {
    OneViolation(gs[0], action, level, t);
    if i > 0 {
      assert forall j | 0 <= j < i - 1 :: gs[1..][j] == gs[j + 1];
      FirstViolationIs(gs[1..], action, level, t, i - 1);
    }
  }

  lemma BlastFirst(subjects: seq<Subject>, p: Proposal, action: Action, level: Level)
    requires subjects != []
    ensures BlastReason(subjects, p.parameters.blastUnknown, action, level, p.target)
         == if Shields(subjects[0], p, action, level)
            then Some(if Concerns(subjects[0], p.target) then ProtectedSubject else UnknownTarget)
            else BlastReason(subjects[1..], p.parameters.blastUnknown, action, level, p.target)
  {
    ProtectsMeans(subjects[0], p, action, level);
    MatchMeans(subjects[0], p.target);
  }

  lemma {:induction false} BlastReasonIs(subjects: seq<Subject>, p: Proposal, action: Action, level: Level, i: nat)
    requires i < |subjects| && Shields(subjects[i], p, action, level)
    requires forall j | 0 <= j < i :: !Shields(subjects[j], p, action, level)
    ensures BlastReason(subjects, p.parameters.blastUnknown, action, level, p.target)
         == Some(if Concerns(subjects[i], p.target) then ProtectedSubject else UnknownTarget)
  {
    BlastFirst(subjects, p, action, level);
    if i > 0 {
      assert !Shields(subjects[0], p, action, level);
      assert forall j | 0 <= j < i - 1 :: subjects[1..][j] == subjects[j + 1];
      BlastReasonIs(subjects[1..], p, action, level, i - 1);
    }
  }

  /** A denial enforces nothing and leaves the proposal's duration and parameters. */
  lemma DeniedMeans(r: Policy, p: Proposal)
    requires !Resolve(r, p).allowed
    ensures var out := Resolve(r, p);
      && (out.action, out.level, out.ttl, out.parameters) == (NoAction, Observe, p.ttl, p.parameters)
      && |out.reasons| == 1
  {
  }

  /** The first guardrail in the way is reported, unless the capability is missing. */
  lemma GuardrailReported(r: Policy, p: Proposal, i: nat)
    requires r.managed && r.hasPack && r.ceiling != CapObserve
    requires var (action, level) := Asked(r, p);
      && action != NoAction && Capable(r, action) && HinderedBy(r, p, action, level, i)
      && forall j: nat | j < i :: !HinderedBy(r, p, action, level, j)
    ensures var g := r.guardrails[i];
      Resolve(r, p).reasons
      == [if Concerns(g.subject, p.target) then GuardrailViolated(g.id) else GuardrailUnknown(g.id)]
  {
    var (action, level) := Asked(r, p);
    CappedIsAsked(r, p);
    CapableIff(r, action);
    forall j | 0 <= j < i ensures !Hinders(r.guardrails[j], action, level, p.target) {
      assert !HinderedBy(r, p, action, level, j);
    }
    FirstViolationIs(r.guardrails, action, level, p.target, i);
  }

  /** A missing capability is reported first. */
  lemma CapabilityReported(r: Policy, p: Proposal)
    requires r.managed && r.hasPack && r.ceiling != CapObserve
    requires Asked(r, p).0 != NoAction && !Capable(r, Asked(r, p).0)
    ensures Resolve(r, p).reasons == [CapabilityMissing(Asked(r, p).0)]
  {
    CappedIsAsked(r, p);
    CapableIff(r, Asked(r, p).0);
  }

  /** Past these, the first protected subject in the way is reported. */
  lemma ShieldReported(r: Policy, p: Proposal, i: nat)
    requires r.managed && r.hasPack && r.ceiling != CapObserve
    requires var (action, level) := Asked(r, p);
      && (action != NoAction ==> Capable(r, action) && !Hindered(r, p, action, level))
      && ShieldedBy(p, action, level, i) && forall j: nat | j < i :: !ShieldedBy(p, action, level, j)
    ensures Resolve(r, p).reasons
         == [if Concerns(p.parameters.protected[i], p.target) then ProtectedSubject else UnknownTarget]
  {
    var (action, level) := Asked(r, p);
    CappedIsAsked(r, p);
    PastGuardrails(r, p, action, level);
    forall j | 0 <= j < i ensures !Shields(p.parameters.protected[j], p, action, level) {
      assert !ShieldedBy(p, action, level, j);
    }
    BlastReasonIs(p.parameters.protected, p, action, level, i);
  }

  /** What the first two gates let through meets the protected subjects next. */
  lemma PastGuardrails(r: Policy, p: Proposal, action: Action, level: Level)
    requires action != NoAction ==> Capable(r, action) && !Hindered(r, p, action, level)
    ensures var blast := BlastReason(p.parameters.protected, p.parameters.blastUnknown, action, level, p.target);
      DenyReason(r, p, action, level)
      == if blast.Some? then blast
         else if r.lifecycle.None? || action == NoAction then None
         else if ReservedToUnknown(r.lifecycle.value.allow, action) && !SourceIsUnknown(p) then Some(SubjectNotAllowed)
         else if action in r.lifecycle.value.approvals && !p.parameters.approved then Some(ApprovalRequired(action))
         else None
  {
    CapableIff(r, action);
    HinderedIff(r, p, action, level);
    if action != NoAction { NoViolation(r, p, action, level); }
  }

  lemma NoViolation(r: Policy, p: Proposal, action: Action, level: Level)
    requires forall g | g in r.guardrails && level != Observe :: !Blocks(g, action, level, p.target)
    ensures level != Observe ==> FirstViolation(r.guardrails, action, level, p.target).None?
  {
    FirstViolationIff(r.guardrails, action, level, p.target);
    forall g | g in r.guardrails && level != Observe ensures Violation(g, action, level, p.target).None? { }
  }

  /** And past those, that the action is reserved to unknown sources or lacks its approval. */
  lemma LifecycleReported(r: Policy, p: Proposal)
    requires r.managed && r.hasPack && r.ceiling != CapObserve && !Resolve(r, p).allowed
    requires var (action, level) := Asked(r, p);
      && (action != NoAction ==> Capable(r, action) && !Hindered(r, p, action, level))
      && !Shielded(p, action, level)
    ensures var action := Asked(r, p).0;
      Resolve(r, p).reasons
      == [if Reserved(r, action) && !FromUnknown(p) then SubjectNotAllowed else ApprovalRequired(action)]
  {
    var (action, level) := Asked(r, p);
    CappedIsAsked(r, p);
    PastGuardrails(r, p, action, level);
    ShieldedIff(p, action, level);
    BlastIff(p.parameters.protected, p, action, level);
    UnknownIff(p);
    if r.lifecycle.Some? { ReservedIff(r, action); }
  }
}
