/** UTF-8 strings as byte sequences, with the byte-wise order, prefix test and
    substring search that Rust's `str` has. The prefix test is Dafny's `<=`. */
module Bytes {
  import opened Wrappers

  type Byte = b: int | 0 <= b < 256
  type Str = seq<Byte>

  /** Strict lexicographic order on bytes. */
  predicate Lt(a: Str, b: Str) {
    b != [] && (a == [] || a[0] < b[0] || (a[0] == b[0] && Lt(a[1..], b[1..])))
  }

  predicate Leq(a: Str, b: Str) {
    a == b || Lt(a, b)
  }

  predicate StrictlySorted(s: seq<Str>) {
    forall i, j :: 0 <= i < j < |s| ==> Lt(s[i], s[j])
  }

  /** The first place where two strings differ decides, and a string comes before its extensions. */
  lemma {:induction false} LtMeaning(a: Str, b: Str)
    ensures Lt(a, b) <==>
      exists i :: 0 <= i <= |a| && i < |b| && a[..i] == b[..i] && (i == |a| || a[i] < b[i])
  {
    if a != [] && b != [] && a[0] == b[0] {
      LtMeaning(a[1..], b[1..]);
      var x, y := a[1..], b[1..];
      if i :| 0 <= i <= |x| && i < |y| && x[..i] == y[..i] && (i == |x| || x[i] < y[i]) {
        assert a[..i + 1] == [a[0]] + a[1..][..i] && b[..i + 1] == [b[0]] + b[1..][..i];
      }
      if i :| 0 <= i <= |a| && i < |b| && a[..i] == b[..i] && (i == |a| || a[i] < b[i]) {
        assert i > 0;
        assert a[1..][..i - 1] == a[..i][1..] && b[1..][..i - 1] == b[..i][1..];
      }
    } else {
      assert a[..0] == b[..0];
      if i :| 0 <= i <= |a| && i < |b| && a[..i] == b[..i] && (i == |a| || a[i] < b[i]) {
        SameHead(a, b, i);
      }
    }
  }

  lemma SameHead(a: Str, b: Str, i: nat)
    ensures 0 < i <= |a| && i <= |b| && a[..i] == b[..i] ==> a[0] == b[0]
  {
    assert 0 < i <= |a| && i <= |b| ==> a[..i][0] == a[0] && b[..i][0] == b[0];
  }

  lemma LtIrreflexive(a: Str)
    ensures !Lt(a, a)
  {
  }

  lemma LtTransitive(a: Str, b: Str, c: Str)
    requires Lt(a, b) && Lt(b, c)
    ensures Lt(a, c)
  {
  }

  lemma LeqLtTransitive(a: Str, b: Str, c: Str)
    requires Leq(a, b) && Lt(b, c)
    ensures Lt(a, c)
  {
    if a != b {
      LtTransitive(a, b, c);
    }
  }

  lemma LtTotal(a: Str, b: Str)
    ensures Lt(a, b) || a == b || Lt(b, a)
  {
    if a != [] && b != [] && a[0] == b[0] {
      LtTotal(a[1..], b[1..]);
      if a[1..] == b[1..] {
        assert a == [a[0]] + a[1..] && b == [b[0]] + b[1..];
      }
    }
  }

  lemma LtAsymmetric(a: Str, b: Str)
    requires Lt(a, b)
    ensures !Lt(b, a) && a != b
  {
    LtIrreflexive(a);
    if Lt(b, a) {
      LtTransitive(a, b, a);
    }
  }

  /** A string is never below one of its prefixes. */
  lemma PrefixLeq(p: Str, a: Str)
    requires p <= a
    ensures Leq(p, a)
  {
    if p != [] {
      PrefixLeq(p[1..], a[1..]);
      if p[1..] == a[1..] {
        assert p == [p[0]] + p[1..] && a == [a[0]] + a[1..];
      }
    } else {
      assert a != [] ==> Lt(p, a);
    }
  }

  /** The strings with a given prefix form an interval of the order. */
  lemma PrefixConvex(p: Str, a: Str, b: Str, c: Str)
    requires p <= a && p <= c && Leq(a, b) && Leq(b, c)
    ensures p <= b
  {
    if p != [] && a != b && b != c {
      assert a[0] == c[0] == b[0];
      PrefixConvex(p[1..], a[1..], b[1..], c[1..]);
      assert p == [p[0]] + p[1..] && b == [b[0]] + b[1..];
    }
  }

  /** Comparing concatenations whose heads have equal length. */
  lemma LtConcat(a: Str, b: Str, c: Str, d: Str)
    requires |a| == |c|
    ensures Lt(a + b, c + d) <==> Lt(a, c) || (a == c && Lt(b, d))
  {
    if a == [] {
      assert a + b == b && c + d == d;
    } else {
      LtConcat(a[1..], b, c[1..], d);
      assert (a + b)[1..] == a[1..] + b && (c + d)[1..] == c[1..] + d;
      assert a == [a[0]] + a[1..] && c == [c[0]] + c[1..];
    }
  }

  predicate OccursAt(s: Str, d: Str, j: nat) {
    j + |d| <= |s| && s[j..j + |d|] == d
  }

  /** `str::find`: the first occurrence of `d` in `s`. */
  function Find(s: Str, d: Str): (r: Option<nat>)
    ensures r.Some? ==> OccursAt(s, d, r.value) && forall j: nat | j < r.value :: !OccursAt(s, d, j)
    ensures r.None? ==> forall j: nat :: !OccursAt(s, d, j)
  {
    if OccursAt(s, d, 0) then
      Some(0)
    else if s == [] then
      None
    else
      var rest := Find(s[1..], d);
      assert forall j: nat | j > 0 :: OccursAt(s, d, j) ==> OccursAt(s[1..], d, j - 1) by {
        forall j: nat | j > 0 && OccursAt(s, d, j) ensures OccursAt(s[1..], d, j - 1) {
          assert s[1..][j - 1..j - 1 + |d|] == s[j..j + |d|];
        }
      }
      assert rest.Some? ==> s[1..][rest.value..rest.value + |d|] == s[rest.value + 1..rest.value + 1 + |d|];
      if rest.Some? then Some(rest.value + 1) else None
  }

  lemma OccursInPrefix(s: Str, t: Str, d: Str, j: nat, n: nat)
    requires j + |d| <= n <= |s| && s[..n] <= t
    ensures OccursAt(t, d, j) <==> OccursAt(s, d, j)
  {
    assert t[j..j + |d|] == t[..n][j..j + |d|] == s[j..j + |d|];
  }

  /** The first occurrence is fixed by any prefix that contains it. */
  lemma FindInPrefix(s: Str, t: Str, d: Str)
    requires Find(s, d).Some? && s[..Find(s, d).value + |d|] <= t
    ensures Find(t, d) == Find(s, d)
  {
    var pos := Find(s, d).value;
    var head := s[..pos + |d|];
    forall j: nat | j <= pos ensures OccursAt(t, d, j) <==> OccursAt(s, d, j) {
      OccursInPrefix(s, t, d, j, pos + |d|);
    }
  }

  lemma FoundHead(s: Str, d: Str)
    requires d != []
    ensures Find(s, d).Some? ==> d[0] in s
  {
    if Find(s, d).Some? {
      var pos := Find(s, d).value;
      assert s[pos..pos + |d|][0] == s[pos];
    }
  }
}
