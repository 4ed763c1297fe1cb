/** The string operations the Go code relies on, with the facts the proofs need about them. */
module Text {

  datatype Option<+T> = None | Some(value: T)

  /** Unicode white space, as trimmed by Go. */
  predicate IsSpace(c: char) {
    var n := c as int;
    (9 <= n <= 13) || n == 0x20 || n == 0x85 || n == 0xA0 || n == 0x1680 || (0x2000 <= n <= 0x200A)
    || n == 0x2028 || n == 0x2029 || n == 0x202F || n == 0x205F || n == 0x3000
  }

  predicate IsTrimmed(s: string) {
    s != "" ==> !IsSpace(s[0]) && !IsSpace(s[|s| - 1])
  }

  function TrimSpace(s: string): (t: string)
    ensures IsTrimmed(t)
    ensures IsTrimmed(s) ==> t == s
  {
    if s == "" then s
    else if IsSpace(s[0]) then TrimSpace(s[1..])
    else if IsSpace(s[|s| - 1]) then TrimSpace(s[..|s| - 1])
    else s
  }

  /** What is left of `s` without the white space at its two ends. */
  ghost predicate Trimmed(s: string, t: string) {
    exists i, j :: 0 <= i <= j <= |s| && t == s[i..j] && Padding(s, i, j) && !IsPadded(t)
  }

  predicate Padding(s: string, i: nat, j: nat)
    requires i <= j <= |s|
  {
    forall k | 0 <= k < |s| && (k < i || j <= k) :: IsSpace(s[k])
  }

  predicate IsPadded(t: string) {
    t != "" && (IsSpace(t[0]) || IsSpace(t[|t| - 1]))
  }

  lemma {:induction false} TrimsTo(s: string, i: nat, j: nat)
    requires i <= j <= |s| && Padding(s, i, j) && !IsPadded(s[i..j])
    ensures TrimSpace(s) == s[i..j]
    decreases |s|
  {
    if s != "" && IsSpace(s[0]) {
      var rest := s[1..];
      if i > 0 {
        assert rest[i - 1..j - 1] == s[i..j];
        TrimsTo(rest, i - 1, j - 1);
      } else {
        assert j == 0;
        TrimsTo(rest, 0, 0);
      }
    } else if s != "" && IsSpace(s[|s| - 1]) {
      var rest := s[..|s| - 1];
      assert s[i..j] != "" ==> s[i..j][j - i - 1] == s[j - 1];
      assert rest[i..j] == s[i..j];
      TrimsTo(rest, i, j);
    } else {
      assert s[i..j] == s;
    }
  }

  lemma PadBefore(s: string, i: nat, j: nat)
    requires s != "" && IsSpace(s[0]) && i <= j <= |s| - 1 && Padding(s[1..], i, j)
    ensures Padding(s, i + 1, j + 1) && s[i + 1..j + 1] == s[1..][i..j]
  {
    forall k | 0 <= k < |s| && (k < i + 1 || j + 1 <= k) ensures IsSpace(s[k]) {
      if k > 0 { assert s[k] == s[1..][k - 1]; }
    }
    assert |s[1..][i..j]| == j - i && forall k | 0 <= k < j - i :: s[i + 1..j + 1][k] == s[1..][i..j][k];
  }

  lemma PadAfter(s: string, i: nat, j: nat)
    requires s != "" && IsSpace(s[|s| - 1]) && i <= j <= |s| - 1 && Padding(s[..|s| - 1], i, j)
    ensures Padding(s, i, j) && s[i..j] == s[..|s| - 1][i..j]
  {
    forall k | 0 <= k < |s| && (k < i || j <= k) ensures IsSpace(s[k]) {
      if k < |s| - 1 { assert s[k] == s[..|s| - 1][k]; }
    }
    assert forall k | 0 <= k < j - i :: s[i..j][k] == s[..|s| - 1][i..j][k];
  }

  lemma {:induction false} TrimStays(s: string)
    ensures Trimmed(s, TrimSpace(s))
  {
    if s != "" && IsSpace(s[0]) {
      TrimStays(s[1..]);
      var i, j :| 0 <= i <= j <= |s[1..]| && TrimSpace(s) == s[1..][i..j] && Padding(s[1..], i, j);
      PadBefore(s, i, j);
    } else if s != "" && IsSpace(s[|s| - 1]) {
      TrimStays(s[..|s| - 1]);
      var i, j :| 0 <= i <= j <= |s| - 1 && TrimSpace(s) == s[..|s| - 1][i..j] && Padding(s[..|s| - 1], i, j);
      PadAfter(s, i, j);
    } else {
      assert s[0..|s|] == s && Padding(s, 0, |s|);
    }
  }

  lemma TrimExactly(s: string, t: string)
    ensures t == TrimSpace(s) <==> Trimmed(s, t)
  {
    TrimStays(s);
    if Trimmed(s, t) {
      var i, j :| 0 <= i <= j <= |s| && t == s[i..j] && Padding(s, i, j) && !IsPadded(t);
      TrimsTo(s, i, j);
    }
  }

  /** The value under a key, empty without one. */
  function ValueAt(m: map<string, string>, k: string): string {
    if k in m then m[k] else ""
  }

  predicate HasPrefix(s: string, p: string) {
    p <= s
  }

  /** Code-point order, which is the byte order of the UTF-8 encodings. */
  predicate Less(a: string, b: string) {
    b != "" && (a == "" || a[0] < b[0] || (a[0] == b[0] && Less(a[1..], b[1..])))
  }

  lemma {:induction false} LessTrichotomy(a: string, b: string)
    ensures Less(a, b) || a == b || Less(b, a)
    ensures !(Less(a, b) && Less(b, a)) && !Less(a, a)
  {
    if a != "" {
      LessTrichotomy(a[1..], a[1..]);
      if b != "" && a[0] == b[0] {
        LessTrichotomy(a[1..], b[1..]);
        assert a == [a[0]] + a[1..] && b == [b[0]] + b[1..];
      }
    }
  }

  /** Where the strings part: the first ends there, or has the smaller character. */
  ghost predicate Precedes(a: string, b: string) {
    exists k :: 0 <= k <= |a| && k < |b| && a[..k] == b[..k] && (k < |a| ==> a[k] < b[k])
  }

  lemma {:induction false} LessExactly(a: string, b: string)
    ensures Less(a, b) <==> Precedes(a, b)
  {
    if a == "" || b == "" || a[0] != b[0] {
      assert b != "" ==> a[..0] == b[..0];
      forall k | 0 < k <= |a| && k < |b| ensures a[..k] != b[..k] { assert a[..k][0] == a[0] && b[..k][0] == b[0]; }
    } else {
      var (c, d) := (a[1..], b[1..]);
      LessExactly(c, d);
      if k :| 0 <= k <= |c| && k < |d| && c[..k] == d[..k] && (k < |c| ==> c[k] < d[k]) {
        assert a[..k + 1] == [a[0]] + c[..k] && b[..k + 1] == [b[0]] + d[..k];
      }
      if k :| 0 <= k <= |a| && k < |b| && a[..k] == b[..k] && (k < |a| ==> a[k] < b[k]) {
        assert k > 0 && c[..k - 1] == a[..k][1..] && d[..k - 1] == b[..k][1..];
      }
    }
  }

  lemma {:induction false} LessTransitive(a: string, b: string, c: string)
    requires Less(a, b) && Less(b, c)
    ensures Less(a, c)
  {
    if a != "" && a[0] == b[0] == c[0] {
      LessTransitive(a[1..], b[1..], c[1..]);
    }
  }

  /** Position of the first `c`, or the length. */
  function IndexOf(s: string, c: char): (i: nat)
    ensures i <= |s| && c !in s[..i]
    ensures i < |s| ==> s[i] == c
    ensures i == |s| <==> c !in s
  {
    if s == "" then 0
    else if s[0] == c then 0
    else
      var i := IndexOf(s[1..], c);
      assert s[..i + 1] == [s[0]] + s[1..][..i];
      i + 1
  }

  lemma {:induction false} IndexOfConcat(p: string, c: char, rest: string)
    ensures IndexOf(p + [c] + rest, c) == IndexOf(p, c)
  {
    if p != "" && p[0] != c {
      assert (p + [c] + rest)[1..] == p[1..] + [c] + rest;
      IndexOfConcat(p[1..], c, rest);
    }
  }
}
