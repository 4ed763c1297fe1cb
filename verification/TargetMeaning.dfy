/** What targets and relationship keys say, entry by entry: the metadata of a lease and what it decodes to, the
    relationship a set of attributes names, the attributes of a proposal, and the canonical text. */
module TargetMeaning {
  import opened Text
  import opened LeaseTargets
  import opened RelationshipKey
  import opened RelationshipTarget
  import PolicySubjects

  // ---------------------------------------------------------------- lease metadata

  predicate Fixed(x: string) {
    x in {"requested_action", "requested_level", "target_granularity", "target_value"}
  }

  lemma FixedKeys(x: string)
    requires Fixed(x)
    ensures !(ATTR_PREFIX <= x) && !(PARAM_PREFIX <= x)
  {
    assert ATTR_PREFIX[0] == 't' && ATTR_PREFIX[7] == 'a' && PARAM_PREFIX[0] == 'p';
    if x == "target_granularity" || x == "target_value" {
      assert x[0] == 't' && x[7] != 'a';
      NoPrefix(ATTR_PREFIX, x, 7);
    } else {
      assert x[0] == 'r';
      NoPrefix(ATTR_PREFIX, x, 0);
    }
    NoPrefix(PARAM_PREFIX, x, 0);
  }

  lemma PrefixedKeys(k: string)
    ensures !Fixed("target_attr." + k) && !Fixed("param." + k) && !(PARAM_PREFIX <= "target_attr." + k)
    ensures !(ATTR_PREFIX <= "param." + k)
  {
    var (a, p) := ("target_attr." + k, "param." + k);
    assert a[0] == 't' && a[7] == 'a' && p[0] == 'p';
    if Fixed(a) { FixedKeys(a); }
    if Fixed(p) { FixedKeys(p); }
  }

  lemma MetadataFixed(ra: string, rl: string, t: ActionTarget, params: map<string, string>)
    ensures var m := BuildMetadata(ra, rl, t, params);
      && ValueAt(m, "requested_action") == ra && ValueAt(m, "requested_level") == rl
      && ValueAt(m, "target_granularity") == t.granularity && ValueAt(m, "target_value") == t.value
  {
    FixedKeys("requested_action");
    FixedKeys("requested_level");
    FixedKeys("target_granularity");
    FixedKeys("target_value");
  }

  lemma MetadataPrefixed(ra: string, rl: string, t: ActionTarget, params: map<string, string>, k: string)
    ensures var m := BuildMetadata(ra, rl, t, params);
      && ("target_attr." + k in m <==> k in t.attributes)
      && (k in t.attributes ==> m["target_attr." + k] == t.attributes[k])
      && ("param." + k in m <==> k in params) && (k in params ==> m["param." + k] == params[k])
  {
    PrefixedKeys(k);
    assert "target_attr." + k == ATTR_PREFIX + k && "param." + k == PARAM_PREFIX + k;
  }

  /** The metadata of a lease: the request and the target, every attribute and every parameter under its prefix,
      and nothing else. */
  lemma MetadataSays(ra: string, rl: string, t: ActionTarget, params: map<string, string>, k: string)
    ensures var m := BuildMetadata(ra, rl, t, params);
      && ValueAt(m, "requested_action") == ra && ValueAt(m, "requested_level") == rl
      && ValueAt(m, "target_granularity") == t.granularity && ValueAt(m, "target_value") == t.value
      && ("target_attr." + k in m <==> k in t.attributes)
      && (k in t.attributes ==> m["target_attr." + k] == t.attributes[k])
      && ("param." + k in m <==> k in params) && (k in params ==> m["param." + k] == params[k])
  {
    MetadataFixed(ra, rl, t, params);
    MetadataPrefixed(ra, rl, t, params, k);
  }

  lemma MetadataOnly(ra: string, rl: string, t: ActionTarget, params: map<string, string>, x: string)
    requires x in BuildMetadata(ra, rl, t, params)
    ensures Fixed(x) || "target_attr." <= x || "param." <= x
  {
  }

  /** Cut at its first colon, if it has one. */
  ghost predicate Cuts(target: string, before: string, after: string) {
    target == before + ":" + after && ':' !in before
  }

  lemma CutAt(target: string, before: string, after: string)
    requires Cuts(target, before, after)
    ensures var i := IndexOf(target, ':');
      i < |target| && target[..i] == before && target[i + 1..] == after
  {
    assert target == before + [':'] + after;
    IndexOfConcat(before, ':', after);
    assert target[|before|] == ':';
  }

  lemma CutsAway(target: string)
    requires ':' in target
    ensures exists before, after :: Cuts(target, before, after)
  {
    var i := IndexOf(target, ':');
    assert target == target[..i] + ":" + target[i + 1..];
    assert Cuts(target, target[..i], target[i + 1..]);
  }

  /** A lease decodes to the granularity and the value of its metadata or, if one is missing, to its target cut
      at the first colon; without a colon the whole target is the value. The attributes are those prefixed. */
  lemma LeaseSays(target: string, metadata: map<string, string>, k: string)
    ensures var (t, g, v) := (TargetFromLease(target, metadata),
                              ValueAt(metadata, "target_granularity"), ValueAt(metadata, "target_value"));
      && (if g != "" && v != "" then t.granularity == g && t.value == v
          else if ':' in target then Cuts(target, t.granularity, t.value)
          else t.granularity == g && t.value == target)
      && (k in t.attributes <==> "target_attr." + k in metadata)
      && (k in t.attributes ==> t.attributes[k] == metadata["target_attr." + k])
  {
    StripKeysAt(ATTR_PREFIX, metadata, k);
    if ':' in target {
      CutsAway(target);
      var before, after :| Cuts(target, before, after);
      CutAt(target, before, after);
    }
  }

  // ---------------------------------------------------------------- relationships

  ghost predicate NamesTarget(attrs: map<string, string>, id: string) {
    PolicySubjects.Gives(attrs, ["target_id", "object_id", "object_entity_id"], id)
  }

  /** The attribute names a dimension that is not blank. */
  ghost predicate NamesDimension(attrs: map<string, string>, name: string) {
    name != "" && "dimension." + name in attrs && !Text.Trimmed(attrs["dimension." + name], "")
  }

  /** The dimensions the attributes name. */
  ghost predicate SaysDimensions(attrs: map<string, string>, dims: map<string, string>) {
    && (forall name {:trigger name in dims} :: name in dims <==> NamesDimension(attrs, name))
    && (forall name | name in dims :: Text.Trimmed(attrs["dimension." + name], dims[name]))
  }

  /** The attributes say exactly this key: its subject, its target under the first accepted spelling that is not
      blank, and its named dimensions that are not blank, all without padding. */
  ghost predicate Says(sourceId: string, attrs: map<string, string>, key: RelationshipKey) {
    && key.subject != "" && Text.Trimmed(sourceId, key.subject) && NamesTarget(attrs, key.target)
    && SaysDimensions(attrs, key.dimension) && (key.target != "" || key.dimension != map[])
  }

  lemma TargetGiven(attrs: map<string, string>, id: string)
    ensures TargetIdOf(attrs) == id <==> NamesTarget(attrs, id)
  {
    var keys := ["target_id", "object_id", "object_entity_id"];
    PolicySubjects.FirstAttrGives(attrs, keys, id);
    assert keys[1..] == ["object_id", "object_entity_id"] && keys[1..][1..] == ["object_entity_id"];
    FirstOfThree(attrs, "target_id", "object_id", "object_entity_id");
  }

  lemma FirstOfThree(attrs: map<string, string>, a: string, b: string, c: string)
    ensures PolicySubjects.PolicyResolver.FirstAttr(attrs, [a, b, c])
         == var (x, y, z) := (TrimSpace(Lookup(attrs, a)), TrimSpace(Lookup(attrs, b)), TrimSpace(Lookup(attrs, c)));
            if x != "" then x else if y != "" then y else z
  {
    var z := TrimSpace(Lookup(attrs, c));
    assert [a, b, c][1..] == [b, c] && [b, c][1..] == [c] && [c][1..] == [];
    assert PolicySubjects.PolicyResolver.FirstAttr(attrs, [c]) == z;
  }

  lemma DimensionsSay(attrs: map<string, string>, name: string)
    ensures var dims := Dimensions(attrs);
      && (name in dims <==> NamesDimension(attrs, name))
      && (name in dims ==> Text.Trimmed(attrs["dimension." + name], dims[name]))
  {
    StripKeysAt(DIMENSION, attrs, name);
    if "dimension." + name in attrs {
      TrimExactly(attrs["dimension." + name], "");
      TrimExactly(attrs["dimension." + name], TrimSpace(attrs["dimension." + name]));
    }
  }

  lemma SameDimensions(attrs: map<string, string>, dims: map<string, string>)
    requires forall name {:trigger name in dims} :: name in dims <==> NamesDimension(attrs, name)
    requires forall name | name in dims ::
      NamesDimension(attrs, name) && Text.Trimmed(attrs["dimension." + name], dims[name])
    ensures dims == Dimensions(attrs)
  {
    forall name ensures name in dims <==> name in Dimensions(attrs)
                ensures name in dims ==> dims[name] == Dimensions(attrs)[name]
    {
      DimensionsSay(attrs, name);
      if name in dims {
        TrimExactly(attrs["dimension." + name], dims[name]);
        TrimExactly(attrs["dimension." + name], Dimensions(attrs)[name]);
      }
    }
  }

  lemma DimensionsExactly(attrs: map<string, string>, dims: map<string, string>)
    ensures dims == Dimensions(attrs) <==> SaysDimensions(attrs, dims)
  {
    if dims == Dimensions(attrs) {
      forall name ensures name in dims <==> NamesDimension(attrs, name)
                  ensures name in dims ==> Text.Trimmed(attrs["dimension." + name], dims[name])
      {
        DimensionsSay(attrs, name);
      }
    }
    if SaysDimensions(attrs, dims) { SameDimensions(attrs, dims); }
  }

  /** Attributes decode to a key exactly when they say it. */
  lemma DecodesExactly(sourceId: string, attrs: map<string, string>, key: RelationshipKey)
    ensures DecodeKey(sourceId, attrs) == Some(key) <==> Says(sourceId, attrs, key)
  {
    TrimExactly(sourceId, key.subject);
    TargetGiven(attrs, key.target);
    DimensionsExactly(attrs, key.dimension);
  }

  /** An action target names a relationship exactly when it is of that granularity and its attributes say it, for
      the subject or else the source they give. */
  lemma TargetNamesExactly(t: ActionTarget, key: RelationshipKey)
    ensures FromActionTarget(t) == Some(key) <==>
      && t.granularity == "relationship"
      && Says(if ValueAt(t.attributes, "subject_id") != "" then ValueAt(t.attributes, "subject_id")
              else ValueAt(t.attributes, "source_id"), t.attributes, key)
  {
    var (subject, source) := (ValueAt(t.attributes, "subject_id"), ValueAt(t.attributes, "source_id"));
    DecodesExactly(if subject != "" then subject else source, t.attributes, key);
  }

  /** A decoded relationship comes with the attributes it was decoded from and a proposal that names it by its
      canonical text, its subject, its target if it has one, and its dimensions, and by nothing else. */
  lemma ProposalSays(printable: char -> bool, sourceId: string, attrs: map<string, string>, x: string)
    ensures match FromAttributes(printable, sourceId, attrs)
      case None => true
      case Some(rel) =>
        var (key, t) := (rel.key, rel.proposal);
        && Says(sourceId, attrs, key) && rel.attributes == attrs
        && t.granularity == "relationship" && t.value == Canonical(printable, key)
        && ValueAt(t.attributes, "subject_id") == key.subject && ValueAt(t.attributes, "target_id") == key.target
        && ("target_id" in t.attributes <==> key.target != "")
        && ("dimension." + x in t.attributes <==> x in key.dimension)
        && (x in key.dimension ==> t.attributes["dimension." + x] == key.dimension[x])
        && (x in t.attributes ==> x in {"subject_id", "target_id"} || "dimension." <= x)
  {
    if FromAttributes(printable, sourceId, attrs).Some? {
      var key := FromAttributes(printable, sourceId, attrs).value.key;
      DecodesExactly(sourceId, attrs, key);
      AttributesSay(key, x);
    }
  }

  lemma AttributesSay(key: RelationshipKey, x: string)
    ensures var a := ProposalAttributes(key);
      && ValueAt(a, "subject_id") == key.subject && ValueAt(a, "target_id") == key.target
      && ("target_id" in a <==> key.target != "")
      && ("dimension." + x in a <==> x in key.dimension)
      && (x in key.dimension ==> a["dimension." + x] == key.dimension[x])
      && (x in a ==> x in {"subject_id", "target_id"} || "dimension." <= x)
  {
    NotADimension("subject_id");
    NotADimension("target_id");
    var d := "dimension." + x;
    assert d[0] == 'd' && d == DIMENSION + x;
  }

  // ---------------------------------------------------------------- the canonical text

  /** Text that quoting leaves as it is. */
  predicate Plain(printable: char -> bool, s: string) {
    forall i | 0 <= i < |s| :: printable(s[i]) && s[i] != '"' && s[i] != '\\'
  }

  lemma {:induction false} PlainBody(printable: char -> bool, s: string)
    requires Plain(printable, s)
    ensures QuoteBody(printable, s) == s + "\""
  {
    if s != "" {
      PlainBody(printable, s[1..]);
      assert s == [s[0]] + s[1..];
    }
  }

  lemma PlainQuote(printable: char -> bool, s: string)
    requires Plain(printable, s)
    ensures Quote(printable, s) == "\"" + s + "\""
  {
    PlainBody(printable, s);
  }

  /** The dimensions, each named and quoted. */
  function PlainTail(keys: seq<string>, m: map<string, string>): string {
    if keys == [] then ""
    else "|dimension.\"" + keys[0] + "\"=\"" + ValueAt(m, keys[0]) + "\"" + PlainTail(keys[1..], m)
  }

  /** All of it plain. */
  predicate PlainKey(printable: char -> bool, key: RelationshipKey) {
    && Plain(printable, key.subject) && Plain(printable, key.target)
    && forall k | k in key.dimension :: Plain(printable, k) && Plain(printable, key.dimension[k])
  }

  lemma PlainPart(printable: char -> bool, k: string, v: string, tail: string)
    requires Plain(printable, k) && Plain(printable, v)
    ensures ['|'] + (DIMENSION + (Quote(printable, k) + (['='] + (Quote(printable, v) + tail))))
         == "|dimension.\"" + k + "\"=\"" + v + "\"" + tail
  {
    PlainQuote(printable, k);
    PlainQuote(printable, v);
    ValuePart(v, tail);
    KeyPart(k, "=\"" + v + "\"" + tail);
    assert "|dimension.\"" + k + "\"" + ("=\"" + v + "\"" + tail) == "|dimension.\"" + k + "\"=\"" + v + "\"" + tail;
  }

  lemma ValuePart(v: string, tail: string)
    ensures ['='] + (("\"" + v + "\"") + tail) == "=\"" + v + "\"" + tail
  {
  }

  lemma KeyPart(k: string, rest: string)
    ensures ['|'] + (DIMENSION + (("\"" + k + "\"") + rest)) == "|dimension.\"" + k + "\"" + rest
  {
    assert ['|'] + (DIMENSION + "\"") == "|dimension.\"";
    assert ['|'] + (DIMENSION + (("\"" + k + "\"") + rest)) == (['|'] + (DIMENSION + "\"")) + k + "\"" + rest;
  }

  lemma {:induction false} TailIsPlain(printable: char -> bool, keys: seq<string>, m: map<string, string>)
    requires forall k | k in keys :: k in m && Plain(printable, k) && Plain(printable, m[k])
    ensures Tail(printable, keys, m) == PlainTail(keys, m)
  {
    if keys != [] {
      TailIsPlain(printable, keys[1..], m);
      PlainPart(printable, keys[0], m[keys[0]], Tail(printable, keys[1..], m));
    }
  }

  /** Each once, in code-point order. */
  ghost predicate InOrder(keys: seq<string>, m: map<string, string>) {
    && (forall k :: k in keys <==> k in m) && forall i, j | 0 <= i < j < |keys| :: Precedes(keys[i], keys[j])
  }

  lemma OnlyOrder(keys: seq<string>, m: map<string, string>)
    requires InOrder(keys, m)
    ensures keys == SortedKeys(m.Keys)
  {
    forall i, j | 0 <= i < j < |keys| ensures Less(keys[i], keys[j]) { LessExactly(keys[i], keys[j]); }
    AscendingUnique(keys, SortedKeys(m.Keys));
  }

  /** The canonical text of a plain key is its subject, its target and its dimensions in order, each quoted. */
  lemma PlainCanonical(printable: char -> bool, key: RelationshipKey, keys: seq<string>)
    requires PlainKey(printable, key) && InOrder(keys, key.dimension)
    ensures Canonical(printable, key)
         == "subject=\"" + key.subject + "\"|target=\"" + key.target + "\"" + PlainTail(keys, key.dimension)
  {
    OnlyOrder(keys, key.dimension);
    CanonicalShape(printable, key);
    PlainQuote(printable, key.subject);
    PlainQuote(printable, key.target);
    TailIsPlain(printable, keys, key.dimension);
    PlainHead(key.subject, key.target, PlainTail(keys, key.dimension));
  }

  lemma PlainHead(s: string, t: string, tail: string)
    ensures SUBJECT + (("\"" + s + "\"") + (['|'] + (TARGET + (("\"" + t + "\"") + tail))))
         == "subject=\"" + s + "\"|target=\"" + t + "\"" + tail
  {
    var (l, r) := (SUBJECT + (("\"" + s + "\"") + (['|'] + (TARGET + (("\"" + t + "\"") + tail)))),
                   "subject=\"" + s + "\"|target=\"" + t + "\"" + tail);
    assert l == r;
  }

  /** Everything else is escaped: quotes and backslashes behind a backslash, control characters by their letter,
      and the rest by their code in hexadecimal digits. */
  lemma EscapeSays(printable: char -> bool, c: char)
    ensures var (s, n) := (Escape(printable, c), c as int);
      if c == '"' || c == '\\' then s == ['\\', c]
      else if printable(c) then s == [c]
      else if n in {7, 8, 9, 10, 11, 12, 13} then s == ['\\', "abtnvfr"[n - 7]]
      else
        && s[0] == '\\' && |s| == (if n < 32 || n == 127 then 4 else if n < 65536 then 6 else 10)
        && s[1] == (if n < 32 || n == 127 then 'x' else if n < 65536 then 'u' else 'U')
        && HexValue(s[2..]) == Some(n)
  {
    var (s, n) := (Escape(printable, c), c as int);
    PowersOf16();
    if |s| > 2 {
      HexReads(n, |s| - 2);
      assert s[2..] == Hex(n, |s| - 2);
    }
  }
}
