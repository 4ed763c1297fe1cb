/** How an action target travels through a lease: as a target string, and inside the lease metadata
    from which a revert decodes it again. */
module LeaseTargets {
  import opened Text

  datatype ActionTarget = ActionTarget(granularity: string, value: string, attributes: map<string, string>)

  const ATTR_PREFIX := "target_attr."
  const PARAM_PREFIX := "param."
  const GRANULARITY_KEY := "target_granularity"
  const VALUE_KEY := "target_value"

  function TargetString(t: ActionTarget): string {
    if t.granularity == "" then t.value else t.granularity + ":" + t.value
  }

  function Lookup(m: map<string, string>, k: string): string {
    if k in m then m[k] else ""
  }

  /** The map with every key prefixed. */
  ghost function PrefixKeys(p: string, m: map<string, string>): (r: map<string, string>)
    ensures forall k {:trigger p + k} :: (p + k in r <==> k in m) && (k in m ==> r[p + k] == m[k])
    ensures forall x {:trigger x in r} :: x in r ==> p <= x
  {
    if m == map[] then map[]
    else
      var k :| k in m;
      assert forall j {:trigger p + j} :: (p + j)[|p|..] == j;
      PrefixKeys(p, m - {k})[p + k := m[k]]
  }

  /** The entries whose key starts with `p`, without the prefix. */
  ghost function StripKeys(p: string, m: map<string, string>): map<string, string> {
    if m == map[] then map[]
    else
      var x :| x in m;
      if p <= x then StripKeys(p, m - {x})[x[|p|..] := m[x]] else StripKeys(p, m - {x})
  }

  lemma {:induction false} StripKeysAt(p: string, m: map<string, string>, k: string)
    ensures var r := StripKeys(p, m);
      (k in r <==> p + k in m) && (k in r ==> r[k] == m[p + k])
  {
    forall x | x in m
      ensures var r := StripKeys(p, m - {x});
        (k in r <==> p + k in m - {x}) && (k in r ==> r[k] == m[p + k])
      ensures p <= x ==> (k == x[|p|..] <==> p + k == x)
    {
      StripKeysAt(p, m - {x}, k);
      if p <= x { Rejoin(p, x, k); }
    }
  }

  lemma Rejoin(p: string, x: string, k: string)
    requires p <= x
    ensures k == x[|p|..] <==> p + k == x
  {
    assert x == p + x[|p|..] && (p + k)[|p|..] == k;
  }

  function FixedMetadata(requestedAction: string, requestedLevel: string, t: ActionTarget): map<string, string> {
    map["requested_action" := requestedAction, "requested_level" := requestedLevel,
        GRANULARITY_KEY := t.granularity, VALUE_KEY := t.value]
  }

  /** The metadata a broker stores with a lease. Parameters are already rendered as text. */
  ghost function BuildMetadata(requestedAction: string, requestedLevel: string, t: ActionTarget,
      params: map<string, string>): map<string, string> {
    FixedMetadata(requestedAction, requestedLevel, t) + PrefixKeys(ATTR_PREFIX, t.attributes)
      + PrefixKeys(PARAM_PREFIX, params)
  }

  ghost function TargetFromLease(target: string, metadata: map<string, string>): ActionTarget {
    var (g, v) := (Lookup(metadata, GRANULARITY_KEY), Lookup(metadata, VALUE_KEY));
    var attrs := StripKeys(ATTR_PREFIX, metadata);
    if g == "" || v == "" then
      var i := IndexOf(target, ':');
      if i < |target| then ActionTarget(target[..i], target[i + 1..], attrs)
      else ActionTarget(g, target, attrs)
    else
      ActionTarget(g, v, attrs)
  }

  /** The key under which a PEP remembers the fencing token of a lease. */
  ghost function FencingKey(target: string, metadata: map<string, string>): string {
    if target != "" then target else TargetString(TargetFromLease(target, metadata))
  }

  method WriteMetadata(requestedAction: string, requestedLevel: string, t: ActionTarget, params: map<string, string>)
    returns (metadata: map<string, string>)
    ensures metadata == BuildMetadata(requestedAction, requestedLevel, t, params)
  {
    var attrs := CopyPrefixed(ATTR_PREFIX, t.attributes, FixedMetadata(requestedAction, requestedLevel, t));
    metadata := CopyPrefixed(PARAM_PREFIX, params, attrs);
  }

  /** The two filling loops of the broker: copy `src` into `dst` under a key prefix, in any order. */
  method CopyPrefixed(p: string, src: map<string, string>, dst: map<string, string>) returns (out: map<string, string>)
    ensures out == dst + PrefixKeys(p, src)
  {
    out := dst;
    var rest := src;
    while rest != map[]
      invariant out + PrefixKeys(p, rest) == dst + PrefixKeys(p, src)
      decreases |rest|
    {
      var k :| k in rest;
      PrefixOne(p, rest, k);
      UpdateMoves(out, PrefixKeys(p, rest - {k}), p + k, rest[k]);
      out, rest := out[p + k := rest[k]], rest - {k};
    }
  }

  /** The decoding loop: collect the attributes back out of the metadata, in any order. */
  method CollectStripped(p: string, metadata: map<string, string>) returns (out: map<string, string>)
    ensures out == StripKeys(p, metadata)
  {
    out := map[];
    var rest := metadata;
    while rest != map[]
      invariant out + StripKeys(p, rest) == StripKeys(p, metadata)
      decreases |rest|
    {
      var x :| x in rest;
      StripOne(p, rest, x);
      if HasPrefix(x, p) {
        var k := x[|p|..];
        UpdateMoves(out, StripKeys(p, rest - {x}), k, rest[x]);
        out := out[k := rest[x]];
      }
      rest := rest - {x};
    }
  }

  method DecodeTarget(target: string, metadata: map<string, string>) returns (t: ActionTarget)
    ensures t == TargetFromLease(target, metadata)
  {
    var g, v := Lookup(metadata, GRANULARITY_KEY), Lookup(metadata, VALUE_KEY);
    if g == "" || v == "" {
      var i := IndexOf(target, ':');
      if i < |target| {
        g, v := target[..i], target[i + 1..];
      } else {
        v := target;
      }
    }
    var attrs := CollectStripped(ATTR_PREFIX, metadata);
    return ActionTarget(g, v, attrs);
  }

  lemma StripOne(p: string, m: map<string, string>, x: string)
    requires x in m
    ensures p <= x ==> StripKeys(p, m) == StripKeys(p, m - {x})[x[|p|..] := m[x]]
    ensures p <= x ==> x[|p|..] !in StripKeys(p, m - {x})
    ensures !(p <= x) ==> StripKeys(p, m) == StripKeys(p, m - {x})
  {
    if p <= x { StripHit(p, m, x); } else { StripMiss(p, m, x); }
  }

  lemma StripHit(p: string, m: map<string, string>, x: string)
    requires x in m && p <= x
    ensures StripKeys(p, m) == StripKeys(p, m - {x})[x[|p|..] := m[x]]
    ensures x[|p|..] !in StripKeys(p, m - {x})
  {
    var (a, b, y) := (StripKeys(p, m), StripKeys(p, m - {x}), x[|p|..]);
    Rejoin(p, x, y);
    StripKeysAt(p, m, y);
    StripKeysAt(p, m - {x}, y);
    forall k ensures k in a <==> k in b[y := m[x]] ensures k in a ==> a[k] == b[y := m[x]][k] {
      if k != y {
        Rejoin(p, x, k);
        StripKeysAt(p, m, k);
        StripKeysAt(p, m - {x}, k);
      }
    }
  }

  lemma StripMiss(p: string, m: map<string, string>, x: string)
    requires x in m && !(p <= x)
    ensures StripKeys(p, m) == StripKeys(p, m - {x})
  {
    var (a, b) := (StripKeys(p, m), StripKeys(p, m - {x}));
    forall k ensures k in a <==> k in b ensures k in a ==> a[k] == b[k] {
      assert p <= p + k;
      StripKeysAt(p, m, k);
      StripKeysAt(p, m - {x}, k);
    }
  }

  lemma UpdateMoves(a: map<string, string>, b: map<string, string>, x: string, v: string)
    requires x !in b
    ensures a[x := v] + b == a + b[x := v]
  {
  }

  lemma PrefixOne(p: string, m: map<string, string>, k: string)
    requires k in m
    ensures PrefixKeys(p, m) == PrefixKeys(p, m - {k})[p + k := m[k]]
    ensures p + k !in PrefixKeys(p, m - {k})
  {
    var (a, b) := (PrefixKeys(p, m), PrefixKeys(p, m - {k})[p + k := m[k]]);
    forall x ensures x in a <==> x in b ensures x in a ==> a[x] == b[x] {
      if p <= x { assert x == p + x[|p|..]; }
      if x == p + k { assert x[|p|..] == k; }
    }
  }

  // ---------------------------------------------------------------- round trip

  lemma MetadataLookups(ra: string, rl: string, t: ActionTarget, params: map<string, string>)
    ensures var m := BuildMetadata(ra, rl, t, params);
      Lookup(m, GRANULARITY_KEY) == t.granularity && Lookup(m, VALUE_KEY) == t.value
  {
    NoPrefix(ATTR_PREFIX, GRANULARITY_KEY, 7);
    NoPrefix(ATTR_PREFIX, VALUE_KEY, 7);
    NoPrefix(PARAM_PREFIX, GRANULARITY_KEY, 0);
    NoPrefix(PARAM_PREFIX, VALUE_KEY, 0);
  }

  lemma MetadataAttributes(ra: string, rl: string, t: ActionTarget, params: map<string, string>)
    ensures StripKeys(ATTR_PREFIX, BuildMetadata(ra, rl, t, params)) == t.attributes
  {
    var s := StripKeys(ATTR_PREFIX, BuildMetadata(ra, rl, t, params));
    forall k ensures k in s <==> k in t.attributes
             ensures k in t.attributes ==> s[k] == t.attributes[k]
    {
      AttrRoundTrip(ra, rl, t, params, k);
      StripKeysAt(ATTR_PREFIX, BuildMetadata(ra, rl, t, params), k);
    }
  }

  lemma AttrRoundTrip(ra: string, rl: string, t: ActionTarget, params: map<string, string>, k: string)
    ensures var m := BuildMetadata(ra, rl, t, params);
      && (ATTR_PREFIX + k in m <==> k in t.attributes)
      && (k in t.attributes ==> m[ATTR_PREFIX + k] == t.attributes[k])
  {
    AttrKeyIsForeign(ra, rl, t, k);
    NoPrefix(PARAM_PREFIX, ATTR_PREFIX + k, 0);
  }

  lemma AttrKeyIsForeign(ra: string, rl: string, t: ActionTarget, k: string)
    ensures ATTR_PREFIX + k !in FixedMetadata(ra, rl, t)
  {
    var x := ATTR_PREFIX + k;
    assert x[0] == 't' && x[7] == 'a';
    assert GRANULARITY_KEY[7] == 'g' && VALUE_KEY[7] == 'v' && "requested_action"[0] == 'r'
      && "requested_level"[0] == 'r';
  }

  lemma NoPrefix(p: string, x: string, i: nat)
    requires i < |p| && i < |x| && p[i] != x[i]
    ensures !(p <= x)
  {
  }

  /** Which targets a lease gives back unchanged. */
  predicate SurvivesLease(t: ActionTarget) {
    if t.granularity == "" then ':' !in t.value else t.value != "" || ':' !in t.granularity
  }

  /** A revert decodes the target that was applied exactly when its granularity is set, with a value
      or at least no colon of its own, or when neither part can be mistaken for a separator. */
  lemma TargetSurvivesIff(ra: string, rl: string, t: ActionTarget, params: map<string, string>)
    ensures TargetFromLease(TargetString(t), BuildMetadata(ra, rl, t, params)) == t <==> SurvivesLease(t)
  {
    MetadataLookups(ra, rl, t, params);
    MetadataAttributes(ra, rl, t, params);
    var s := TargetString(t);
    if t.granularity == "" {
      if ':' in t.value {
        assert s[..IndexOf(s, ':')] == "" ==> |s[IndexOf(s, ':') + 1..]| < |s|;
      }
    } else if t.value == "" {
      assert s == t.granularity + [':'] + "";
      IndexOfConcat(t.granularity, ':', "");
      var i := IndexOf(s, ':');
      assert i < |s| by { assert s[|t.granularity|] == ':'; }
      if ':' in t.granularity {
        assert |s[..i]| < |t.granularity|;
      } else {
        assert s[..i] == t.granularity && s[i + 1..] == "";
      }
    }
  }

  /** For every lease a broker writes, the fencing key is the lease's target string. */
  lemma FencingKeyIsTarget(ra: string, rl: string, t: ActionTarget, params: map<string, string>)
    ensures FencingKey(TargetString(t), BuildMetadata(ra, rl, t, params)) == TargetString(t)
  {
    MetadataLookups(ra, rl, t, params);
  }
}
