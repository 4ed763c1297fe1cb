/** The canonical text of a relationship key: quoted subject, quoted target, then the quoted dimensions in
    key order. Go's `strconv.Quote` is written out over an arbitrary table of printable characters. */
module RelationshipKey {
  import opened Text

  datatype RelationshipKey = RelationshipKey(subject: string, target: string, dimension: map<string, string>)

  // ---------------------------------------------------------------- quoting

  function HexDigit(n: nat): char
    requires n < 16
  {
    if n < 10 then (48 + n) as char else (87 + n) as char
  }

  /** `width` lower-case hexadecimal digits. */
  function Hex(n: nat, width: nat): (s: string)
    ensures |s| == width
  {
    if width == 0 then "" else Hex(n / 16, width - 1) + [HexDigit(n % 16)]
  }

  /** One character inside quotes. */
  function Escape(printable: char -> bool, c: char): (s: string)
    ensures s != "" && s[0] != '"'
  {
    var n := c as int;
    if c == '"' || c == '\\' then ['\\', c]
    else if printable(c) then [c]
    else if n == 7 then ['\\', 'a']
    else if n == 8 then ['\\', 'b']
    else if n == 12 then ['\\', 'f']
    else if n == 10 then ['\\', 'n']
    else if n == 13 then ['\\', 'r']
    else if n == 9 then ['\\', 't']
    else if n == 11 then ['\\', 'v']
    else if n < 0x20 || n == 0x7f then ['\\', 'x'] + Hex(n, 2)
    else if n < 0x10000 then ['\\', 'u'] + Hex(n, 4)
    else ['\\', 'U'] + Hex(n, 8)
  }

  /** Everything after the opening quote. */
  function QuoteBody(printable: char -> bool, s: string): string {
    if s == "" then ['"'] else Escape(printable, s[0]) + QuoteBody(printable, s[1..])
  }

  function Quote(printable: char -> bool, s: string): string {
    ['"'] + QuoteBody(printable, s)
  }

  // ---------------------------------------------------------------- reading quotes back

  function DigitValue(c: char): Option<nat> {
    var n := c as int;
    if 48 <= n < 58 then Some(n - 48) else if 97 <= n < 103 then Some(n - 87) else None
  }

  function HexValue(s: string): Option<nat> {
    if s == "" then Some(0)
    else
      var (high, low) := (HexValue(s[..|s| - 1]), DigitValue(s[|s| - 1]));
      if high.Some? && low.Some? then Some(high.value * 16 + low.value) else None
  }

  /** A character written with `width` hexadecimal digits, and what follows it. */
  function ReadHex(s: string, width: nat): (r: Option<(char, string)>)
    ensures r.Some? ==> |r.value.1| <= |s|
  {
    if |s| < width then None
    else
      var v := HexValue(s[..width]);
      if v.Some? && (v.value < 0xD800 || 0xE000 <= v.value < 0x110000) then Some((v.value as char, s[width..]))
        else None
  }

  /** One possibly escaped character, and what follows it. */
  function ReadChar(s: string): (r: Option<(char, string)>)
    ensures r.Some? ==> |r.value.1| < |s|
  {
    if s == "" then None
    else if s[0] != '\\' then Some((s[0], s[1..]))
    else if |s| == 1 then None
    else
      var rest := s[2..];
      match s[1]
      case 'a' => Some((7 as char, rest))
      case 'b' => Some((8 as char, rest))
      case 'f' => Some((12 as char, rest))
      case 'n' => Some((10 as char, rest))
      case 'r' => Some((13 as char, rest))
      case 't' => Some((9 as char, rest))
      case 'v' => Some((11 as char, rest))
      case 'x' => ReadHex(rest, 2)
      case 'u' => ReadHex(rest, 4)
      case 'U' => ReadHex(rest, 8)
      case c => if c == '"' || c == '\\' then Some((c, rest)) else None
  }

  /** Read up to the closing quote: the text, and what follows the quote. */
  function Unquote(s: string): Option<(string, string)>
    decreases |s|
  {
    if s == "" then None
    else if s[0] == '"' then Some(("", s[1..]))
    else
      var first := ReadChar(s);
      if first.None? then None
      else
        var more := Unquote(first.value.1);
        if more.None? then None else Some(([first.value.0] + more.value.0, more.value.1))
  }

  function Pow16(width: nat): nat {
    if width == 0 then 1 else 16 * Pow16(width - 1)
  }

  lemma {:induction false} HexReads(n: nat, width: nat)
    requires n < Pow16(width)
    ensures HexValue(Hex(n, width)) == Some(n)
  {
    if width > 0 {
      HexReads(n / 16, width - 1);
      var s := Hex(n, width);
      assert s[..width - 1] == Hex(n / 16, width - 1);
      assert s[width - 1] == HexDigit(n % 16) && DigitValue(HexDigit(n % 16)) == Some(n % 16);
    }
  }

  lemma HexCharReads(c: char, width: nat, x: string)
    requires c as int < Pow16(width)
    ensures ReadHex(Hex(c as int, width) + x, width) == Some((c, x))
  {
    HexReads(c as int, width);
    assert (Hex(c as int, width) + x)[..width] == Hex(c as int, width);
    assert (Hex(c as int, width) + x)[width..] == x;
  }

  lemma HexEscapeReads(printable: char -> bool, c: char, x: string)
    requires |Escape(printable, c)| > 2
    ensures ReadChar(Escape(printable, c) + x) == Some((c, x))
  {
    var (s, width) := (Escape(printable, c), |Escape(printable, c)| - 2);
    PowersOf16();
    assert (s + x)[0] == s[0] && (s + x)[1] == s[1] && s[2..] == Hex(c as int, width);
    assert (s + x)[2..] == Hex(c as int, width) + x;
    HexCharReads(c, width, x);
  }

  lemma EscapeReads(printable: char -> bool, c: char, x: string)
    ensures ReadChar(Escape(printable, c) + x) == Some((c, x))
  {
    var s := Escape(printable, c);
    if |s| == 1 {
      assert (s + x)[1..] == x;
    } else {
      assert (s + x)[0] == s[0] && (s + x)[1] == s[1];
      if |s| == 2 {
        assert (s + x)[2..] == x;
      } else {
        HexEscapeReads(printable, c, x);
      }
    }
  }

  lemma PowersOf16()
    ensures Pow16(2) == 0x100 && Pow16(4) == 0x10000 && Pow16(8) == 0x100000000
  {
    assert Pow16(2) == 16 * Pow16(1) == 0x100;
    assert Pow16(4) == 16 * Pow16(3) == 16 * 16 * Pow16(2);
    assert Pow16(6) == 16 * Pow16(5) == 16 * 16 * Pow16(4);
    assert Pow16(8) == 16 * Pow16(7) == 16 * 16 * Pow16(6);
  }

  lemma {:induction false} BodyReads(printable: char -> bool, s: string, x: string)
    ensures Unquote(QuoteBody(printable, s) + x) == Some((s, x))
  {
    if s == "" {
      assert QuoteBody(printable, s) + x == ['"'] + x;
      assert (['"'] + x)[1..] == x;
    } else {
      var rest := QuoteBody(printable, s[1..]) + x;
      assert QuoteBody(printable, s) + x == Escape(printable, s[0]) + rest;
      EscapeReads(printable, s[0], rest);
      BodyReads(printable, s[1..], x);
      assert [s[0]] + s[1..] == s;
    }
  }

  /** Unquoting a quoted text gives the text back, and stops exactly at its end. */
  lemma QuoteRoundTrip(printable: char -> bool, s: string, x: string)
    ensures Unquote((Quote(printable, s) + x)[1..]) == Some((s, x))
  {
    BodyReads(printable, s, x);
    DropFirst('"', QuoteBody(printable, s), x);
  }

  lemma DropFirst(c: char, body: string, x: string)
    ensures (([c] + body) + x)[1..] == body + x
  {
  }

  lemma QuoteSelfDelimiting(printable: char -> bool, a: string, b: string, x: string, y: string)
    requires Quote(printable, a) + x == Quote(printable, b) + y
    ensures a == b && x == y
  {
    QuoteRoundTrip(printable, a, x);
    QuoteRoundTrip(printable, b, y);
  }

  // ---------------------------------------------------------------- sorted keys

  predicate Ascending(s: seq<string>) {
    forall i, j | 0 <= i < j < |s| :: Less(s[i], s[j])
  }

  function Insert(s: seq<string>, x: string): (r: seq<string>)
    ensures forall y :: y in r <==> y in s || y == x
    ensures |r| == |s| + 1
  {
    if s == [] || Less(x, s[0]) then [x] + s else [s[0]] + Insert(s[1..], x)
  }

  lemma {:induction false} InsertAscends(s: seq<string>, x: string)
    requires Ascending(s) && x !in s
    ensures Ascending(Insert(s, x))
  {
    if s != [] && Less(x, s[0]) {
      forall j | 0 <= j < |s| ensures Less(x, s[j]) {
        if j > 0 { LessTransitive(x, s[0], s[j]); }
      }
    } else if s != [] {
      LessTrichotomy(x, s[0]);
      InsertAscends(s[1..], x);
      var r := Insert(s[1..], x);
      forall j | 0 <= j < |r| ensures Less(s[0], r[j]) {
        assert r[j] in r;
        if r[j] != x { var i :| 0 <= i < |s[1..]| && s[1..][i] == r[j]; }
      }
    }
  }

  /** The keys in ascending order, whatever order they are taken in. */
  ghost function SortedKeys(keys: set<string>): (s: seq<string>)
    ensures Ascending(s) && forall k :: k in s <==> k in keys
  {
    if keys == {} then []
    else
      var k :| k in keys;
      InsertAscends(SortedKeys(keys - {k}), k);
      Insert(SortedKeys(keys - {k}), k)
  }

  lemma {:induction false} AscendingUnique(a: seq<string>, b: seq<string>)
    requires Ascending(a) && Ascending(b)
    requires forall k :: k in a <==> k in b
    ensures a == b
  {
    assert b != [] ==> b[0] in b;
    if a != [] {
      assert a[0] in a && a[0] in b;
      assert b[0] in b && b[0] in a;
      HeadIsLeast(a, b[0]);
      HeadIsLeast(b, a[0]);
      LessTrichotomy(a[0], b[0]);
      forall k ensures k in a[1..] <==> k in b[1..] {
        TailMembers(a, k);
        TailMembers(b, k);
      }
      AscendingUnique(a[1..], b[1..]);
    }
  }

  lemma HeadIsLeast(s: seq<string>, k: string)
    requires Ascending(s) && k in s
    ensures k == s[0] || Less(s[0], k)
  {
    var i :| 0 <= i < |s| && s[i] == k;
  }

  lemma TailMembers(s: seq<string>, k: string)
    requires Ascending(s) && s != []
    ensures k in s[1..] <==> k in s && k != s[0]
  {
    LessTrichotomy(s[0], s[0]);
    if k in s[1..] {
      var i :| 0 <= i < |s[1..]| && s[1..][i] == k;
      assert Less(s[0], s[i + 1]);
    }
  }

  // ---------------------------------------------------------------- the canonical text

  const SUBJECT := "subject="
  const TARGET := "target="
  const DIMENSION := "dimension."

  function Join(parts: seq<string>): string {
    if parts == [] then "" else if |parts| == 1 then parts[0] else parts[0] + "|" + Join(parts[1..])
  }

  function DimensionPart(printable: char -> bool, k: string, v: string): string {
    DIMENSION + Quote(printable, k) + ['='] + Quote(printable, v)
  }

  function DimensionParts(printable: char -> bool, keys: seq<string>, m: map<string, string>): (r: seq<string>)
    requires forall k | k in keys :: k in m
    ensures |r| == |keys| && forall i | 0 <= i < |keys| :: r[i] == DimensionPart(printable, keys[i], m[keys[i]])
  {
    seq(|keys|, i requires 0 <= i < |keys| => DimensionPart(printable, keys[i], m[keys[i]]))
  }

  ghost function Parts(printable: char -> bool, r: RelationshipKey): seq<string> {
    [SUBJECT + Quote(printable, r.subject), TARGET + Quote(printable, r.target)]
    + DimensionParts(printable, SortedKeys(r.dimension.Keys), r.dimension)
  }

  ghost function Canonical(printable: char -> bool, r: RelationshipKey): string {
    Join(Parts(printable, r))
  }

  /** Build the parts in place: collect the dimension keys in any order, sort them, append one part each. */
  method WriteCanonical(printable: char -> bool, r: RelationshipKey) returns (text: string)
    ensures text == Canonical(printable, r)
  {
    var parts := [SUBJECT + Quote(printable, r.subject), TARGET + Quote(printable, r.target)];
    if |r.dimension| > 0 {
      parts := AppendDimensions(printable, parts, r.dimension);
    } else {
      AscendingUnique([], SortedKeys(r.dimension.Keys));
      assert parts == parts + DimensionParts(printable, SortedKeys(r.dimension.Keys), r.dimension);
    }
    text := Join(parts);
  }

  method AppendDimensions(printable: char -> bool, first: seq<string>, m: map<string, string>)
      returns (parts: seq<string>)
    ensures parts == first + DimensionParts(printable, SortedKeys(m.Keys), m)
  {
    var keys := CollectKeys(m);
    keys := SortStrings(keys);
    AscendingUnique(keys, SortedKeys(m.Keys));
    parts := AppendParts(printable, first, keys, m);
  }

  method AppendParts(printable: char -> bool, first: seq<string>, keys: seq<string>, m: map<string, string>)
      returns (parts: seq<string>)
    requires forall k | k in keys :: k in m
    ensures parts == first + DimensionParts(printable, keys, m)
  {
    parts := first;
    var i := 0;
    while i < |keys|
      invariant 0 <= i <= |keys| && |parts| == |first| + i
      invariant parts[..|first|] == first
      invariant forall j | 0 <= j < i :: parts[|first| + j] == DimensionPart(printable, keys[j], m[keys[j]])
    {
      parts := parts + [DimensionPart(printable, keys[i], m[keys[i]])];
      i := i + 1;
    }
    assert parts[|first|..] == DimensionParts(printable, keys, m);
  }

  method CollectKeys(m: map<string, string>) returns (keys: seq<string>)
    ensures forall k :: k in keys <==> k in m
    ensures forall i, j | 0 <= i < j < |keys| :: keys[i] != keys[j]
  {
    keys := [];
    var rest := m.Keys;
    while rest != {}
      invariant rest <= m.Keys
      invariant forall k :: k in keys <==> k in m.Keys - rest
      invariant forall i, j | 0 <= i < j < |keys| :: keys[i] != keys[j]
      decreases |rest|
    {
      var k :| k in rest;
      assert k !in keys;
      keys, rest := keys + [k], rest - {k};
    }
  }

  method SortStrings(keys: seq<string>) returns (sorted: seq<string>)
    requires forall i, j | 0 <= i < j < |keys| :: keys[i] != keys[j]
    ensures Ascending(sorted) && forall k :: k in sorted <==> k in keys
  {
    sorted := [];
    var i := 0;
    while i < |keys|
      invariant 0 <= i <= |keys|
      invariant Ascending(sorted) && forall k :: k in sorted <==> k in keys[..i]
    {
      InsertAscends(sorted, keys[i]);
      sorted := Insert(sorted, keys[i]);
      i := i + 1;
    }
    assert keys[..i] == keys;
  }

  // ---------------------------------------------------------------- injectivity

  /** What follows the target: one separated part per key. */
  function Tail(printable: char -> bool, keys: seq<string>, m: map<string, string>): string
    requires forall k | k in keys :: k in m
  {
    if keys == [] then ""
    else
      ['|'] + (DIMENSION + (Quote(printable, keys[0])
        + (['='] + (Quote(printable, m[keys[0]]) + Tail(printable, keys[1..], m)))))
  }

  lemma JoinMore(head: string, rest: seq<string>)
    requires rest != []
    ensures Join([head] + rest) == head + (['|'] + Join(rest))
  {
    assert ([head] + rest)[1..] == rest;
    assert head + "|" + Join(rest) == head + (['|'] + Join(rest));
  }

  lemma Regroup(a: string, b: string, c: string, d: string, e: string)
    ensures (a + b + c + d) + e == a + (b + (c + (d + e)))
  {
  }

  lemma JoinPart(head: string, part: string, more: seq<string>, tail: string)
    requires Join([part] + more) == part + tail
    ensures Join([head] + ([part] + more)) == head + (['|'] + (part + tail))
  {
    JoinMore(head, [part] + more);
  }

  lemma TailMore(printable: char -> bool, keys: seq<string>, m: map<string, string>)
    requires keys != [] && forall k | k in keys :: k in m
    ensures Tail(printable, keys, m)
      == ['|'] + (DimensionPart(printable, keys[0], m[keys[0]]) + Tail(printable, keys[1..], m))
  {
    Regroup(DIMENSION, Quote(printable, keys[0]), ['='], Quote(printable, m[keys[0]]), Tail(printable, keys[1..], m));
  }

  lemma PartsMore(printable: char -> bool, keys: seq<string>, m: map<string, string>)
    requires keys != [] && forall k | k in keys :: k in m
    ensures DimensionParts(printable, keys, m)
         == [DimensionPart(printable, keys[0], m[keys[0]])] + DimensionParts(printable, keys[1..], m)
  {
  }

  lemma {:induction false} JoinTail(printable: char -> bool, head: string, keys: seq<string>, m: map<string, string>)
    requires forall k | k in keys :: k in m
    ensures Join([head] + DimensionParts(printable, keys, m)) == head + Tail(printable, keys, m)
    decreases |keys|
  {
    if keys == [] {
      assert [head] + DimensionParts(printable, keys, m) == [head];
    } else {
      var (part, rest) := (DimensionPart(printable, keys[0], m[keys[0]]), keys[1..]);
      JoinTail(printable, part, rest, m);
      PartsMore(printable, keys, m);
      TailMore(printable, keys, m);
      JoinPart(head, part, DimensionParts(printable, rest, m), Tail(printable, rest, m));
    }
  }

  lemma CanonicalShape(printable: char -> bool, r: RelationshipKey)
    ensures Canonical(printable, r)
         == SUBJECT + (Quote(printable, r.subject) + (['|'] + (TARGET + (Quote(printable, r.target)
            + Tail(printable, SortedKeys(r.dimension.Keys), r.dimension)))))
  {
    var keys := SortedKeys(r.dimension.Keys);
    var (qs, qt, dims) := (Quote(printable, r.subject), Quote(printable, r.target),
      DimensionParts(printable, keys, r.dimension));
    var (subject, target) := (SUBJECT + qs, TARGET + qt);
    JoinTail(printable, target, keys, r.dimension);
    assert Parts(printable, r) == [subject] + ([target] + dims);
    JoinMore(subject, [target] + dims);
    Flatten(SUBJECT, qs, TARGET, qt, Tail(printable, keys, r.dimension));
  }

  lemma Flatten(a: string, b: string, c: string, d: string, e: string)
    ensures (a + b) + (['|'] + ((c + d) + e)) == a + (b + (['|'] + (c + (d + e))))
  {
  }

  lemma CancelPrefix(p: string, x: string, y: string)
    requires p + x == p + y
    ensures x == y
  {
    assert (p + x)[|p|..] == x && (p + y)[|p|..] == y;
  }

  /** Behind a fixed head a quoted text can be read off. */
  lemma Peel(printable: char -> bool, head: string, a: string, b: string, x: string, y: string)
    requires head + (Quote(printable, a) + x) == head + (Quote(printable, b) + y)
    ensures a == b && x == y
  {
    CancelPrefix(head, Quote(printable, a) + x, Quote(printable, b) + y);
    QuoteSelfDelimiting(printable, a, b, x, y);
  }

  lemma {:induction false} TailInjective(printable: char -> bool, ks: seq<string>, m: map<string, string>,
      ls: seq<string>, n: map<string, string>)
    requires forall k | k in ks :: k in m
    requires forall k | k in ls :: k in n
    requires Tail(printable, ks, m) == Tail(printable, ls, n)
    ensures ks == ls && forall k | k in ks :: m[k] == n[k]
  {
    if ks != [] && ls != [] {
      var (vk, vl) := (Tail(printable, ks[1..], m), Tail(printable, ls[1..], n));
      var (qk, ql) := (['='] + (Quote(printable, m[ks[0]]) + vk), ['='] + (Quote(printable, n[ls[0]]) + vl));
      CancelPrefix(['|'], DIMENSION + (Quote(printable, ks[0]) + qk), DIMENSION + (Quote(printable, ls[0]) + ql));
      Peel(printable, DIMENSION, ks[0], ls[0], qk, ql);
      Peel(printable, ['='], m[ks[0]], n[ls[0]], vk, vl);
      TailInjective(printable, ks[1..], m, ls[1..], n);
    }
  }

  /** The canonical text behind a fixed subject head, read from the front. */
  lemma PeelBoth(printable: char -> bool, s: string, t: string, u: string, v: string, x: string, y: string)
    requires SUBJECT + (Quote(printable, s) + (['|'] + (TARGET + (Quote(printable, u) + x))))
          == SUBJECT + (Quote(printable, t) + (['|'] + (TARGET + (Quote(printable, v) + y))))
    ensures s == t && u == v && x == y
  {
    var (a, b) := (TARGET + (Quote(printable, u) + x), TARGET + (Quote(printable, v) + y));
    Peel(printable, SUBJECT, s, t, ['|'] + a, ['|'] + b);
    CancelPrefix(['|'], a, b);
    Peel(printable, TARGET, u, v, x, y);
  }

  lemma SameDimensions(printable: char -> bool, a: map<string, string>, b: map<string, string>)
    requires Tail(printable, SortedKeys(a.Keys), a) == Tail(printable, SortedKeys(b.Keys), b)
    ensures a == b
  {
    var ka := SortedKeys(a.Keys);
    TailInjective(printable, ka, a, SortedKeys(b.Keys), b);
    assert a.Keys == b.Keys;
    forall k | k in a ensures a[k] == b[k] { assert k in ka; }
  }

  /** Two keys have the same canonical text exactly when they are the same key. */
  lemma CanonicalInjective(printable: char -> bool, a: RelationshipKey, b: RelationshipKey)
    ensures Canonical(printable, a) == Canonical(printable, b) <==> a == b
  {
    if Canonical(printable, a) == Canonical(printable, b) {
      CanonicalShape(printable, a);
      CanonicalShape(printable, b);
      PeelBoth(printable, a.subject, b.subject, a.target, b.target,
               Tail(printable, SortedKeys(a.dimension.Keys), a.dimension),
               Tail(printable, SortedKeys(b.dimension.Keys), b.dimension));
      SameDimensions(printable, a.dimension, b.dimension);
    }
  }
}
