/** Strings as the bundle uses them: the byte order of `BTreeMap` and `BTreeSet` keys, canonical ids,
    prefixes, and the separators that make composed keys readable back. */
module Text {

  datatype Option<+T> = None | Some(value: T)

  /** Strict lexicographic order, the iteration order of ordered maps and sets of strings. */
  predicate Below(a: string, b: string) {
    b != [] && (a == [] || a[0] < b[0] || (a[0] == b[0] && Below(a[1..], b[1..])))
  }

  lemma BelowTotal(a: string, b: string)
    ensures a == b || Below(a, b) || Below(b, a)
  {
    if a != [] && b != [] && a[0] == b[0] {
      BelowTotal(a[1..], b[1..]);
      assert a == [a[0]] + a[1..] && b == [b[0]] + b[1..];
    }
  }

  lemma {:induction false} BelowTransitive(a: string, b: string, c: string)
    requires Below(a, b) && Below(b, c)
    ensures Below(a, c)
  {
    if a != [] && a[0] == b[0] && b[0] == c[0] {
      BelowTransitive(a[1..], b[1..], c[1..]);
    }
  }

  lemma {:induction false} BelowIrreflexive(a: string)
    ensures !Below(a, a)
  {
    if a != [] {
      BelowIrreflexive(a[1..]);
    }
  }

  ghost predicate StrictlySorted(s: seq<string>) {
    forall i, j {:trigger Below(s[i], s[j])} :: 0 <= i < j < |s| ==> Below(s[i], s[j])
  }

  predicate Least(s: set<string>, m: string) {
    m in s && forall x :: x in s ==> x == m || Below(m, x)
  }

  lemma {:induction false} HasOneLeast(s: set<string>)
    requires s != {}
    ensures exists m :: m in s && Least(s, m)
    ensures forall m, n :: Least(s, m) && Least(s, n) ==> m == n
  {
    var m :| m in s;
    if s == {m} {
      assert Least(s, m);
    } else {
      HasOneLeast(s - {m});
      var rest :| Least(s - {m}, rest);
      BelowTotal(m, rest);
      forall x | x in s && Below(m, rest) ensures x == m || Below(m, x) {
        if x != m && x != rest {
          BelowTransitive(m, rest, x);
        }
      }
      assert Least(s, m) || Least(s, rest);
    }
    forall a, b | Least(s, a) && Least(s, b) ensures a == b {
      if a != b {
        BelowTransitive(a, b, a);
        BelowIrreflexive(a);
      }
    }
  }

  /** The elements of a set in increasing order, as iterating an ordered set yields them. */
  function Sorted(s: set<string>): (r: seq<string>)
    ensures StrictlySorted(r)
    ensures forall x :: x in r <==> x in s
    ensures |r| == |s|
  {
    if s == {} then [] else
      HasOneLeast(s);
      var m :| m in s && Least(s, m);
      [m] + Sorted(s - {m})
  }

  /** A strictly sorted sequence has no element twice. */
  lemma SortedDistinct(s: seq<string>, i: nat, j: nat)
    requires StrictlySorted(s) && i < j < |s|
    ensures s[i] != s[j]
  {
    assert Below(s[i], s[j]);
    BelowIrreflexive(s[i]);
  }

  /** A strictly sorted sequence is determined by its elements. */
  lemma {:induction false} SortedUnique(a: seq<string>, b: seq<string>)
    requires StrictlySorted(a) && StrictlySorted(b)
    requires forall x :: x in a <==> x in b
    ensures a == b
  {
    assert forall i :: 0 <= i < |b| ==> b[i] in a;
    assert b != [] ==> b[0] in a;
    if a != [] {
      assert a[0] in b && b != [];
      assert b[0] in a;
      var i :| 0 <= i < |b| && b[i] == a[0];
      var j :| 0 <= j < |a| && a[j] == b[0];
      if i > 0 {
        assert Below(b[0], a[0]);
        if j > 0 {
          assert Below(a[0], b[0]);
          BelowTransitive(a[0], b[0], a[0]);
        }
        BelowIrreflexive(a[0]);
        assert false;
      }
      forall x ensures x in a[1..] <==> x in b[1..] {
        if x in a[1..] {
          var k :| 0 <= k < |a[1..]| && a[1..][k] == x;
          SortedDistinct(a, 0, k + 1);
          assert x in a;
        }
        if x in b[1..] {
          var k :| 0 <= k < |b[1..]| && b[1..][k] == x;
          SortedDistinct(b, 0, k + 1);
          assert x in b;
        }
      }
      SortedUnique(a[1..], b[1..]);
      assert a == [a[0]] + a[1..] && b == [b[0]] + b[1..];
    }
  }

  predicate StartsWith(s: string, prefix: string) {
    |prefix| <= |s| && s[..|prefix|] == prefix
  }

  /** Canonical ids: 1 to 64 characters of lowercase kebab-case. */
  predicate Canonical(s: string) {
    && 1 <= |s| <= 64
    && (forall c :: c in s ==> 'a' <= c <= 'z' || '0' <= c <= '9' || c == '-')
    && s[0] != '-' && s[|s| - 1] != '-'
    && (forall i :: 0 <= i < |s| - 1 ==> !(s[i] == '-' && s[i + 1] == '-'))
  }

  /** Text cut at the first separator can be put together in one way only. */
  lemma {:induction false} SeparatorInjective(a: string, b: string, c: string, d: string, sep: char)
    requires sep !in a && sep !in c
    requires a + [sep] + b == c + [sep] + d
    ensures a == c && b == d
  {
    var whole := a + [sep] + b;
    assert whole[|a|] == sep && whole[|c|] == sep;
    assert forall i :: 0 <= i < |a| ==> whole[i] == a[i] && a[i] != sep;
    assert forall i :: 0 <= i < |c| ==> whole[i] == c[i] && c[i] != sep;
    assert a == whole[..|a|] == c;
    assert b == whole[|a| + 1..] == d;
  }

  /** There are as many strings in order as one likes. */
  lemma {:induction false} ManyKeys(n: nat) returns (keys: seq<string>)
    ensures |keys| == n && StrictlySorted(keys) && forall i :: 0 <= i < n ==> keys[i] == seq(i + 1, j => 'a')
  {
    keys := seq(n, i requires 0 <= i < n => seq(i + 1, j => 'a'));
    forall i, j | 0 <= i < j < n ensures Below(keys[i], keys[j]) { ShorterIsBelow(i + 1, j + 1); }
  }

  lemma {:induction false} ShorterIsBelow(m: nat, n: nat)
    requires m < n
    ensures Below(seq(m, j => 'a'), seq(n, j => 'a'))
  {
    var a, b := seq(m, j => 'a'), seq(n, j => 'a');
    if m > 0 {
      ShorterIsBelow(m - 1, n - 1);
      assert a[1..] == seq(m - 1, j => 'a') && b[1..] == seq(n - 1, j => 'a');
    }
  }

  /** A sorted sequence is no longer than any set that holds its elements. */
  lemma {:induction false} SortedFits(s: seq<string>, within: set<string>)
    requires StrictlySorted(s) && forall x :: x in s ==> x in within
    ensures |s| <= |within|
    decreases |s|
  {
    if s != [] {
      forall x | x in s[1..] ensures x in within - {s[0]} {
        var i :| 0 <= i < |s[1..]| && s[1..][i] == x;
        SortedDistinct(s, 0, i + 1);
        assert x in s;
      }
      assert s[0] in s;
      SortedFits(s[1..], within - {s[0]});
    }
  }
}
