/** Relationship targets: decoded from attributes, proposed as an action target, and decoded again when a
    lease is reverted. */
module RelationshipTarget {
  import opened Text
  import opened LeaseTargets
  import opened RelationshipKey

  const RELATIONSHIP := "relationship"
  const SUBJECT_ID := "subject_id"
  const SOURCE_ID := "source_id"
  const TARGET_ID := "target_id"
  const OBJECT_ID := "object_id"
  const OBJECT_ENTITY_ID := "object_entity_id"

  /** What the PEP is given, and the proposal that names it. */
  datatype RelationshipAction = RelationshipAction(key: RelationshipKey, attributes: map<string, string>,
      proposal: ActionTarget)

  // ---------------------------------------------------------------- decoding

  /** The first non-blank of the accepted attribute names, trimmed. */
  function TargetIdOf(attrs: map<string, string>): string {
    var (t, o, e) := (TrimSpace(Lookup(attrs, TARGET_ID)), TrimSpace(Lookup(attrs, OBJECT_ID)),
      TrimSpace(Lookup(attrs, OBJECT_ENTITY_ID)));
    if t != "" then t else if o != "" then o else e
  }

  method FindTargetId(attrs: map<string, string>) returns (id: string)
    ensures id == TargetIdOf(attrs)
  {
    var names := [TARGET_ID, OBJECT_ID, OBJECT_ENTITY_ID, TARGET_ID];
    var i := 0;
    while i < 4
      invariant 0 <= i <= 4
      invariant forall j | 0 <= j < i :: TrimSpace(Lookup(attrs, names[j])) == ""
    {
      var v := TrimSpace(Lookup(attrs, names[i]));
      if v != "" { return v; }
      i := i + 1;
    }
    assert names[0] == TARGET_ID && names[1] == OBJECT_ID && names[2] == OBJECT_ENTITY_ID;
    return "";
  }

  /** The named, non-blank dimensions, trimmed. */
  ghost function Dimensions(attrs: map<string, string>): map<string, string> {
    var dims := StripKeys(DIMENSION, attrs);
    map k | k in dims && k != "" && TrimSpace(dims[k]) != "" :: TrimSpace(dims[k])
  }

  method CollectDimensions(attrs: map<string, string>) returns (out: map<string, string>)
    ensures out == Dimensions(attrs)
  {
    out := map[];
    var rest := attrs.Keys;
    while rest != {}
      invariant rest <= attrs.Keys
      invariant forall k {:trigger k in out} :: k in out <==>
        DIMENSION + k in attrs && DIMENSION + k !in rest && k != "" && TrimSpace(attrs[DIMENSION + k]) != ""
      invariant forall k | k in out :: out[k] == TrimSpace(attrs[DIMENSION + k])
      decreases |rest|
    {
      var x :| x in rest;
      if HasPrefix(x, DIMENSION) {
        var name := x[|DIMENSION|..];
        assert DIMENSION + name == x;
        if name != "" && TrimSpace(attrs[x]) != "" { out := out[name := TrimSpace(attrs[x])]; }
      }
      forall k | DIMENSION + k == x ensures HasPrefix(x, DIMENSION) && k == x[|DIMENSION|..] { }
      rest := rest - {x};
    }
    forall k ensures k in out <==> k in Dimensions(attrs) ensures k in out ==> out[k] == Dimensions(attrs)[k] {
      StripKeysAt(DIMENSION, attrs, k);
    }
  }

  /** The subject and the key an attribute map describes; blank subjects and empty keys are refused. */
  ghost function DecodeKey(sourceId: string, attrs: map<string, string>): Option<RelationshipKey> {
    var key := RelationshipKey(TrimSpace(sourceId), TargetIdOf(attrs), Dimensions(attrs));
    if key.subject == "" || (key.target == "" && key.dimension == map[]) then None else Some(key)
  }

  ghost function ProposalAttributes(key: RelationshipKey): map<string, string> {
    map[SUBJECT_ID := key.subject] + (if key.target != "" then map[TARGET_ID := key.target] else map[])
    + PrefixKeys(DIMENSION, key.dimension)
  }

  method WriteProposalAttributes(key: RelationshipKey) returns (attrs: map<string, string>)
    ensures attrs == ProposalAttributes(key)
  {
    attrs := map[SUBJECT_ID := key.subject];
    if key.target != "" { attrs := attrs[TARGET_ID := key.target]; }
    attrs := CopyPrefixed(DIMENSION, key.dimension, attrs);
  }

  ghost function Proposal(printable: char -> bool, key: RelationshipKey): ActionTarget {
    ActionTarget(RELATIONSHIP, Canonical(printable, key), ProposalAttributes(key))
  }

  ghost function FromAttributes(printable: char -> bool, sourceId: string,
      attrs: map<string, string>): Option<RelationshipAction> {
    var key := DecodeKey(sourceId, attrs);
    if key.None? then None else Some(RelationshipAction(key.value, attrs, Proposal(printable, key.value)))
  }

  method TargetFromAttributes(printable: char -> bool, sourceId: string, attrs: map<string, string>)
      returns (rel: Option<RelationshipAction>)
    ensures rel == FromAttributes(printable, sourceId, attrs)
  {
    var subject := TrimSpace(sourceId);
    if subject == "" { return None; }
    var target := FindTargetId(attrs);
    var dims := CollectDimensions(attrs);
    if target == "" && dims == map[] { return None; }
    var key := RelationshipKey(subject, target, dims);
    var text := WriteCanonical(printable, key);
    var proposal := WriteProposalAttributes(key);
    return Some(RelationshipAction(key, attrs, ActionTarget(RELATIONSHIP, text, proposal)));
  }

  /** The relationship an action target names. */
  ghost function FromActionTarget(t: ActionTarget): Option<RelationshipKey> {
    if t.granularity != RELATIONSHIP then None
    else
      var subject := Lookup(t.attributes, SUBJECT_ID);
      DecodeKey(if subject == "" then Lookup(t.attributes, SOURCE_ID) else subject, t.attributes)
  }

  method TargetFromActionTarget(printable: char -> bool, t: ActionTarget) returns (key: Option<RelationshipKey>)
    ensures key == FromActionTarget(t)
  {
    if t.granularity != RELATIONSHIP { return None; }
    var subject := Lookup(t.attributes, SUBJECT_ID);
    if subject == "" { subject := Lookup(t.attributes, SOURCE_ID); }
    var rel := TargetFromAttributes(printable, subject, t.attributes);
    return if rel.None? then None else Some(rel.value.key);
  }

  // ---------------------------------------------------------------- round trip

  /** Keys as the decoder itself produces them. */
  predicate Normal(key: RelationshipKey) {
    && key.subject != "" && IsTrimmed(key.subject) && IsTrimmed(key.target)
    && (key.target != "" || key.dimension != map[])
    && forall k | k in key.dimension :: k != "" && key.dimension[k] != "" && IsTrimmed(key.dimension[k])
  }

  lemma DecodedIsNormal(sourceId: string, attrs: map<string, string>)
    ensures var key := DecodeKey(sourceId, attrs); key.Some? ==> Normal(key.value)
  {
  }

  lemma NotADimension(x: string)
    requires x != "" && x[0] != 'd'
    ensures forall m: map<string, string> {:trigger PrefixKeys(DIMENSION, m)} :: x !in PrefixKeys(DIMENSION, m)
  {
    assert DIMENSION[0] == 'd';
  }

  lemma NamesDiffer()
    ensures SUBJECT_ID[0] == SOURCE_ID[0] == 's' && SUBJECT_ID[1] != SOURCE_ID[1]
    ensures TARGET_ID[0] == 't' && OBJECT_ID[0] == OBJECT_ENTITY_ID[0] == 'o'
  {
  }

  lemma ProposalLookups(key: RelationshipKey)
    ensures var attrs := ProposalAttributes(key);
      && Lookup(attrs, SUBJECT_ID) == key.subject && Lookup(attrs, SOURCE_ID) == ""
      && Lookup(attrs, TARGET_ID) == key.target && Lookup(attrs, OBJECT_ID) == ""
        && Lookup(attrs, OBJECT_ENTITY_ID) == ""
  {
    NamesDiffer();
    NotADimension(SUBJECT_ID);
    NotADimension(SOURCE_ID);
    NotADimension(TARGET_ID);
    NotADimension(OBJECT_ID);
    NotADimension(OBJECT_ENTITY_ID);
  }

  lemma ProposalDimensions(key: RelationshipKey)
    ensures StripKeys(DIMENSION, ProposalAttributes(key)) == key.dimension
  {
    NamesDiffer();
    var (attrs, m) := (ProposalAttributes(key), StripKeys(DIMENSION, ProposalAttributes(key)));
    forall k ensures k in m <==> k in key.dimension ensures k in m ==> m[k] == key.dimension[k] {
      assert (DIMENSION + k)[0] == 'd';
      assert DIMENSION + k in attrs <==> DIMENSION + k in PrefixKeys(DIMENSION, key.dimension);
      StripKeysAt(DIMENSION, attrs, k);
    }
  }

  /** What is left of a key after trimming and dropping what cannot be named. */
  function Trimmed(key: RelationshipKey): Option<RelationshipKey> {
    var dims := map k | k in key.dimension && k != "" && TrimSpace(key.dimension[k]) != "" ::
      TrimSpace(key.dimension[k]);
    var t := RelationshipKey(TrimSpace(key.subject), TrimSpace(key.target), dims);
    if t.subject == "" || (t.target == "" && t.dimension == map[]) then None else Some(t)
  }

  lemma ProposalDecodes(printable: char -> bool, key: RelationshipKey)
    ensures FromActionTarget(Proposal(printable, key)) == Trimmed(key)
  {
    ProposalLookups(key);
    ProposalDimensions(key);
    assert TrimSpace("") == "";
    assert TargetIdOf(ProposalAttributes(key)) == TrimSpace(key.target);
  }

  lemma TrimmedIff(key: RelationshipKey)
    ensures Trimmed(key) == Some(key) <==> Normal(key)
  {
    var dims := map k | k in key.dimension && k != "" && TrimSpace(key.dimension[k]) != "" ::
      TrimSpace(key.dimension[k]);
    if Normal(key) {
      assert dims == key.dimension;
    } else if dims == key.dimension {
      forall k | k in key.dimension ensures k != "" && key.dimension[k] != "" && IsTrimmed(key.dimension[k]) {
        assert k in dims && dims[k] == TrimSpace(key.dimension[k]);
      }
    }
  }

  /** Proposing a key and decoding the proposal gives the key back exactly when the key is trimmed,
      has a subject, has a target or a dimension, and every dimension has a name and a value. */
  lemma ProposalRoundTripIff(printable: char -> bool, key: RelationshipKey)
    ensures FromActionTarget(Proposal(printable, key)) == Some(key) <==> Normal(key)
  {
    ProposalDecodes(printable, key);
    TrimmedIff(key);
  }

  /** Whatever attributes a relationship came from, its own proposal names the same key. */
  lemma ProposalNamesKey(printable: char -> bool, sourceId: string, attrs: map<string, string>)
    ensures match FromAttributes(printable, sourceId, attrs)
      case None => true
      case Some(rel) => Normal(rel.key) && FromActionTarget(rel.proposal) == Some(rel.key)
  {
    DecodedIsNormal(sourceId, attrs);
    if FromAttributes(printable, sourceId, attrs).Some? {
      ProposalRoundTripIff(printable, FromAttributes(printable, sourceId, attrs).value.key);
    }
  }

  // ---------------------------------------------------------------- through a lease

  /** A revert decodes, from the lease of any relationship target, what that target itself decodes to. */
  lemma RevertHitsApplied(t: ActionTarget, ra: string, rl: string, params: map<string, string>)
    requires t.granularity == RELATIONSHIP
    ensures FromActionTarget(TargetFromLease(TargetString(t), BuildMetadata(ra, rl, t, params))) == FromActionTarget(t)
  {
    assert |RELATIONSHIP| == 12 && ':' !in RELATIONSHIP;
    TargetSurvivesIff(ra, rl, t, params);
  }

  /** Two relationships share a target string, hence a fencing slot and a place in the journal, exactly
      when they are the same relationship. */
  lemma TargetStringIsKey(printable: char -> bool, a: RelationshipKey, b: RelationshipKey)
    ensures TargetString(Proposal(printable, a)) == TargetString(Proposal(printable, b)) <==> a == b
  {
    assert |RELATIONSHIP| > 0;
    var (ca, cb) := (Canonical(printable, a), Canonical(printable, b));
    if TargetString(Proposal(printable, a)) == TargetString(Proposal(printable, b)) {
      CancelPrefix(RELATIONSHIP + ":", ca, cb);
    }
    CanonicalInjective(printable, a, b);
  }
}
