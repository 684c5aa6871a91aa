/** Ordering: Python's `sorted` as an insertion sort over a total preorder,
    and the byte-wise string order of Python 2 `str` comparison. */
module Order {

  ghost predicate IsTotalPreorder<T(!new)>(le: (T, T) -> bool) {
    && (forall x, y :: le(x, y) || le(y, x))
    && (forall x, y, z :: le(x, y) && le(y, z) ==> le(x, z))
  }

  predicate SortedBy<T>(s: seq<T>, le: (T, T) -> bool) {
    forall i, j :: 0 <= i < j < |s| ==> le(s[i], s[j])
  }

  function InsertBy<T>(x: T, s: seq<T>, le: (T, T) -> bool): (r: seq<T>)
    ensures multiset(r) == multiset(s) + multiset{x}
    ensures |r| == |s| + 1
  {
    if s == [] then [x]
    else if le(x, s[0]) then [x] + s
    else
      assert s == [s[0]] + s[1..];
      [s[0]] + InsertBy(x, s[1..], le)
  }

  /** `sorted(s)`: the same elements, in `le` order. */
  function SortBy<T>(s: seq<T>, le: (T, T) -> bool): (r: seq<T>)
    ensures multiset(r) == multiset(s)
    ensures |r| == |s|
  {
    if s == [] then []
    else
      assert s == [s[0]] + s[1..];
      InsertBy(s[0], SortBy(s[1..], le), le)
  }

  lemma {:induction false} InsertBySorted<T(!new)>(x: T, s: seq<T>, le: (T, T) -> bool)
    requires IsTotalPreorder(le)
    requires SortedBy(s, le)
    ensures SortedBy(InsertBy(x, s, le), le)
    decreases |s|
  {
    if s == [] || le(x, s[0]) {
    } else {
      InsertBySorted(x, s[1..], le);
      var t := InsertBy(x, s[1..], le);
      forall k | 0 <= k < |t| ensures le(s[0], t[k]) {
        assert t[k] in multiset(t);
        if t[k] != x {
          assert t[k] in multiset(s[1..]);
          var j :| 0 <= j < |s[1..]| && s[1..][j] == t[k];
          assert s[j + 1] == t[k];
        }
      }
    }
  }

  lemma {:induction false} SortBySorted<T(!new)>(s: seq<T>, le: (T, T) -> bool)
    requires IsTotalPreorder(le)
    ensures SortedBy(SortBy(s, le), le)
    decreases |s|
  {
    if s != [] {
      SortBySorted(s[1..], le);
      InsertBySorted(s[0], SortBy(s[1..], le), le);
    }
  }

  /** Python 2 `str` comparison: lexicographic by character code. */
  predicate StrLe(a: string, b: string)
    decreases |a|
  {
    a == [] || (b != [] && (a[0] < b[0] || (a[0] == b[0] && StrLe(a[1..], b[1..]))))
  }

  lemma {:induction false} StrLeTotal(a: string, b: string)
    ensures StrLe(a, b) || StrLe(b, a)
    decreases |a|
  {
    if a != [] && b != [] && a[0] == b[0] {
      StrLeTotal(a[1..], b[1..]);
    }
  }

  lemma {:induction false} StrLeTransitive(a: string, b: string, c: string)
    requires StrLe(a, b) && StrLe(b, c)
    ensures StrLe(a, c)
    decreases |a|
  {
    if a != [] && b != [] && c != [] && a[0] == b[0] && b[0] == c[0] {
      StrLeTransitive(a[1..], b[1..], c[1..]);
    }
  }

  lemma {:induction false} StrLeAntisymmetric(a: string, b: string)
    requires StrLe(a, b) && StrLe(b, a)
    ensures a == b
    decreases |a|
  {
    if a != [] && b != [] {
      StrLeAntisymmetric(a[1..], b[1..]);
      assert a == [a[0]] + a[1..] && b == [b[0]] + b[1..];
    }
  }

  lemma StrLeIsTotalPreorder()
    ensures IsTotalPreorder(StrLe)
  {
    forall x, y ensures StrLe(x, y) || StrLe(y, x) {
      StrLeTotal(x, y);
    }
    forall x, y, z | StrLe(x, y) && StrLe(y, z) ensures StrLe(x, z) {
      StrLeTransitive(x, y, z);
    }
  }

  /** `sorted()` of a collection of strings. */
  function SortStrings(s: seq<string>): (r: seq<string>)
    ensures multiset(r) == multiset(s)
  {
    SortBy(s, StrLe)
  }

  /** `sorted` of strings orders them as Python 2 compares `str`s. */
  lemma SortStringsSorted(s: seq<string>)
    ensures SortedBy(SortStrings(s), StrLe)
  {
    StrLeIsTotalPreorder();
    SortBySorted(s, StrLe);
  }

  /** Strictly increasing strings are pairwise distinct. */
  predicate StrictlySorted(s: seq<string>) {
    SortedBy(s, StrLe) && forall i, j :: 0 <= i < j < |s| ==> s[i] != s[j]
  }

  /** Sorting the elements of a set, listed once each, lists each once. */
  lemma SortedSetIsStrict(s: seq<string>)
    requires forall i, j :: 0 <= i < j < |s| ==> s[i] != s[j]
    ensures StrictlySorted(SortStrings(s))
  {
    var r := SortStrings(s);
    SortStringsSorted(s);
    forall i, j | 0 <= i < j < |r| ensures r[i] != r[j] {
      if r[i] == r[j] {
        TwoOccurrences(r, i, j);
        CountTwice(s, r[i]);
      }
    }
  }

  lemma TwoOccurrences<T>(r: seq<T>, i: nat, j: nat)
    requires i < j < |r| && r[i] == r[j]
    ensures multiset(r)[r[i]] >= 2
  {
    var x := r[i];
    assert r == r[..j] + r[j..];
    assert r[..j][i] == x;
    assert r[j..][0] == x;
    assert multiset(r[..j])[x] >= 1;
    assert multiset(r[j..])[x] >= 1;
  }

  lemma CountTwice<T>(s: seq<T>, x: T)
    requires forall i, j :: 0 <= i < j < |s| ==> s[i] != s[j]
    ensures multiset(s)[x] <= 1
  {
    if s != [] {
      CountTwice(s[1..], x);
      assert s == [s[0]] + s[1..];
      if s[0] == x {
        assert x !in s[1..];
      }
    }
  }

  /** A rearrangement of a sequence whose elements have distinct keys has
      distinct keys too. */
  lemma PermutedKeysDistinct<T, K>(d: seq<T>, l: seq<T>, key: T -> K)
    requires multiset(l) == multiset(d)
    requires forall i, j :: 0 <= i < j < |d| ==> key(d[i]) != key(d[j])
    ensures forall i, j :: 0 <= i < j < |l| ==> key(l[i]) != key(l[j])
  {
    forall i, j | 0 <= i < j < |l| ensures key(l[i]) != key(l[j]) {
      if key(l[i]) == key(l[j]) {
        assert l[i] in multiset(d) && l[j] in multiset(d);
        var a :| 0 <= a < |d| && d[a] == l[i];
        var b :| 0 <= b < |d| && d[b] == l[j];
        if a != b {
          assert a < b || b < a;
        }
        TwoOccurrences(l, i, j);
        CountTwice(d, l[i]);
      }
    }
  }
}
