/** Python's `sorted`: strings compare lexicographically by code point, and sorting
    by a key is stable. `sorted(set(...))` is the strictly increasing sequence of the
    set's elements, which these lemmas show is unique. */
module Ordering {
  import opened Grouping


  /** Python's `a < b` on strings. */
  predicate LexLess(a: string, b: string)
    decreases |a|
  {
    if a == [] then b != []
    else if b == [] then false
    else if a[0] != b[0] then a[0] < b[0]
    else LexLess(a[1..], b[1..])
  }

  lemma {:induction false} LexIrreflexive(a: string)
    ensures !LexLess(a, a)
    decreases |a|
  {
    if a != [] { LexIrreflexive(a[1..]); }
  }

  lemma {:induction false} LexAsymmetric(a: string, b: string)
    ensures !(LexLess(a, b) && LexLess(b, a))
    decreases |a|
  {
    if a != [] && b != [] && a[0] == b[0] { LexAsymmetric(a[1..], b[1..]); }
  }

  lemma {:induction false} LexTransitive(a: string, b: string, c: string)
    requires LexLess(a, b) && LexLess(b, c)
    ensures LexLess(a, c)
    decreases |a|
  {
    if a != [] && b != [] && c != [] && a[0] == b[0] && b[0] == c[0] {
      LexTransitive(a[1..], b[1..], c[1..]);
    }
  }

  lemma {:induction false} LexTotal(a: string, b: string)
    ensures a == b || LexLess(a, b) || LexLess(b, a)
    decreases |a|
  {
    if a != [] && b != [] && a[0] == b[0] {
      LexTotal(a[1..], b[1..]);
      if a[1..] == b[1..] {
        assert a == [a[0]] + a[1..] && b == [b[0]] + b[1..];
      }
    }
  }

  lemma LexAsymmetricAll()
    ensures forall a: string, b: string :: !(LexLess(a, b) && LexLess(b, a))
  {
    forall a: string, b: string ensures !(LexLess(a, b) && LexLess(b, a)) {
      LexAsymmetric(a, b);
    }
  }

  predicate StrictlySorted(s: seq<string>) {
    forall i, j :: 0 <= i < j < |s| ==> LexLess(s[i], s[j])
  }

  /** A strictly increasing sequence has no repeats. */
  lemma StrictlySortedDistinct(s: seq<string>)
    requires StrictlySorted(s)
    ensures forall i, j :: 0 <= i < j < |s| ==> s[i] != s[j]
  {
    forall i, j | 0 <= i < j < |s| ensures s[i] != s[j] {
      LexIrreflexive(s[i]);
    }
  }

  predicate IsLeast(m: string, s: set<string>) {
    m in s && forall y :: y in s && y != m ==> LexLess(m, y)
  }

  lemma {:induction false} LeastExists(s: set<string>)
    requires s != {}
    ensures exists m :: IsLeast(m, s)
    decreases |s|
  {
    var x :| x in s;
    if s - {x} == {} {
      assert s == {x};
      assert IsLeast(x, s);
    } else {
      LeastExists(s - {x});
      var m :| IsLeast(m, s - {x});
      LexTotal(m, x);
      if LexLess(m, x) {
        assert IsLeast(m, s);
      } else {
        forall y | y in s && y != x ensures LexLess(x, y) {
          if y != m { LexTransitive(x, m, y); }
        }
        assert IsLeast(x, s);
      }
    }
  }

  /** `sorted(s)` for a set of strings. */
  function SortSet(s: set<string>): (r: seq<string>)
    ensures forall x :: x in r <==> x in s
    ensures |r| == |s|
    decreases |s|
  {
    if s == {} then []
    else
      LexAsymmetricAll();
      LeastExists(s);
      var m :| IsLeast(m, s);
      [m] + SortSet(s - {m})
  }

  /** `sorted` lists the set in strictly increasing order. */
  lemma {:induction false} SortSetSorted(s: set<string>)
    ensures StrictlySorted(SortSet(s))
    decreases |s|
  {
    if s != {} {
      var r := SortSet(s);
      var m := r[0];
      assert IsLeast(m, s) && r[1..] == SortSet(s - {m});
      SortSetSorted(s - {m});
      forall i, j | 0 <= i < j < |r| ensures LexLess(r[i], r[j]) {
        if i == 0 {
          assert r[j] == r[1..][j - 1];
        } else {
          assert r[i] == r[1..][i - 1] && r[j] == r[1..][j - 1];
        }
      }
    }
  }

  /** `sorted(set(xs))` */
  function SortDedup(xs: seq<string>): (r: seq<string>)
    ensures StrictlySorted(r)
    ensures forall x :: x in r <==> x in xs
  {
    SortSetSorted(set x | x in xs);
    SortSet(set x | x in xs)
  }

  /** A strictly increasing sequence is determined by its elements: whatever order a
      set is iterated in, `sorted` gives the same list. */
  lemma {:induction false} SortedUnique(a: seq<string>, b: seq<string>)
    requires StrictlySorted(a) && StrictlySorted(b)
    requires forall x :: x in a <==> x in b
    ensures a == b
    decreases |a|
  {
    assert a != [] ==> a[0] in a;
    assert b != [] ==> b[0] in b;
    if a != [] && b != [] {
      if a[0] != b[0] {
        assert a[0] in a && b[0] in b;
        var i :| 0 <= i < |b| && b[i] == a[0];
        var j :| 0 <= j < |a| && a[j] == b[0];
        assert LexLess(b[0], a[0]) by { assert i > 0; }
        assert LexLess(a[0], b[0]) by { assert j > 0; }
        LexAsymmetric(a[0], b[0]);
      } else {
        forall x ensures x in a[1..] <==> x in b[1..] {
          if x in a[1..] {
            var k :| 1 <= k < |a| && a[k] == x;
            assert LexLess(a[0], x);
            LexIrreflexive(x);
            assert x in b;
          }
          if x in b[1..] {
            var k :| 1 <= k < |b| && b[k] == x;
            assert LexLess(b[0], x);
            LexIrreflexive(x);
            assert x in a;
          }
        }
        SortedUnique(a[1..], b[1..]);
      }
    }
  }

  lemma SortSetOfSorted(r: seq<string>, s: set<string>)
    requires StrictlySorted(r)
    requires forall x :: x in r <==> x in s
    ensures SortSet(s) == r
  {
    SortSetSorted(s);
    SortedUnique(SortSet(s), r);
  }

  predicate SortedByKey<T>(s: seq<T>, key: T -> int) {
    forall i, j :: 0 <= i < j < |s| ==> key(s[i]) <= key(s[j])
  }

  /** Insert `x` after every element whose key is not larger: the position a stable
      sort gives an element that came later in the input. */
  function InsertByKey<T>(x: T, s: seq<T>, key: T -> int): (r: seq<T>)
    requires SortedByKey(s, key)
    ensures SortedByKey(r, key)
    ensures multiset(r) == multiset(s) + multiset{x}
    decreases |s|
  {
    if s == [] then [x]
    else if key(s[0]) <= key(x) then
      var rest := InsertByKey(x, s[1..], key);
      assert s == [s[0]] + s[1..];
      KeysAbove(s, x, rest, key);
      ConsSorted(s[0], rest, key);
      [s[0]] + rest
    else
      ConsSorted(x, s, key);
      [x] + s
  }

  /** A first element whose key bounds the rest keeps a sorted sequence sorted. */
  lemma ConsSorted<T>(a: T, rest: seq<T>, key: T -> int)
    requires SortedByKey(rest, key)
    requires forall k :: 0 <= k < |rest| ==> key(a) <= key(rest[k])
    ensures SortedByKey([a] + rest, key)
  {
    var r := [a] + rest;
    forall i, j | 0 <= i < j < |r| ensures key(r[i]) <= key(r[j]) {
      assert r[j] == rest[j - 1];
      if i > 0 {
        assert r[i] == rest[i - 1];
      }
    }
  }

  /** Everything inserted after the head of a sorted sequence has a key at least
      the head's. */
  lemma KeysAbove<T>(s: seq<T>, x: T, rest: seq<T>, key: T -> int)
    requires s != [] && SortedByKey(s, key) && key(s[0]) <= key(x)
    requires multiset(rest) == multiset(s[1..]) + multiset{x}
    ensures forall k :: 0 <= k < |rest| ==> key(s[0]) <= key(rest[k])
  {
    forall k | 0 <= k < |rest| ensures key(s[0]) <= key(rest[k]) {
      assert rest[k] in multiset(rest);
      if rest[k] != x {
        assert rest[k] in s[1..];
      }
    }
  }

  /** `sorted(xs, key=key)` */
  function SortByKey<T>(xs: seq<T>, key: T -> int): (r: seq<T>)
    ensures SortedByKey(r, key)
    ensures multiset(r) == multiset(xs)
    decreases |xs|
  {
    if xs == [] then []
    else
      assert xs == xs[..|xs| - 1] + [xs[|xs| - 1]];
      InsertByKey(xs[|xs| - 1], SortByKey(xs[..|xs| - 1], key), key)
  }

  /** The elements whose key is `v`. */
  function KeyIs<T>(key: T -> int, v: int): T -> bool {
    x => key(x) == v
  }

  /** Filtering a list with a new first element. */
  lemma {:induction false} KeptCons<T(!new)>(a: T, s: seq<T>, keep: T -> bool)
    ensures Kept([a] + s, keep) == (if keep(a) then [a] else []) + Kept(s, keep)
    decreases |s|
  {
    if s == [] {
      assert [a] + s == [a];
      assert [a][..0] == [];
    } else {
      var n := |s| - 1;
      KeptCons(a, s[..n], keep);
      assert ([a] + s)[..|s|] == [a] + s[..n];
      assert ([a] + s)[|s|] == s[n];
    }
  }

  /** A filter that keeps nothing of a list gives the empty list. */
  lemma {:induction false} KeptNothing<T(!new)>(s: seq<T>, keep: T -> bool)
    requires forall k :: 0 <= k < |s| ==> !keep(s[k])
    ensures Kept(s, keep) == []
    decreases |s|
  {
    if s != [] {
      KeptNothing(s[..|s| - 1], keep);
    }
  }

  /** Inserting `x` puts it after every element of its own key: among the
      elements with key `v`, it comes last. */
  lemma {:induction false} InsertByKeyKept<T(!new)>(x: T, s: seq<T>, key: T -> int, v: int)
    requires SortedByKey(s, key)
    ensures Kept(InsertByKey(x, s, key), KeyIs(key, v)) ==
      Kept(s, KeyIs(key, v)) + (if key(x) == v then [x] else [])
    decreases |s|
  {
    var p := KeyIs(key, v);
    var t := if key(x) == v then [x] else [];
    if s == [] {
      KeptCons(x, [], p);
      assert [x] + [] == [x];
    } else if key(s[0]) <= key(x) {
      assert s == [s[0]] + s[1..];
      assert SortedByKey(s[1..], key);
      var rest := InsertByKey(x, s[1..], key);
      assert InsertByKey(x, s, key) == [s[0]] + rest;
      InsertByKeyKept(x, s[1..], key, v);
      KeptAfterHead(s[0], rest, s[1..], p, t);
    } else {
      assert InsertByKey(x, s, key) == [x] + s;
      KeptBeforeAll(x, s, key, v);
    }
  }

  /** A common first element does not disturb a filter's relation between two
      lists. */
  lemma {:induction false} KeptAfterHead<T(!new)>(a: T, rest: seq<T>, tail: seq<T>, p: T -> bool, extra: seq<T>)
    requires Kept(rest, p) == Kept(tail, p) + extra
    ensures Kept([a] + rest, p) == Kept([a] + tail, p) + extra
  {
    KeptCons(a, rest, p);
    KeptCons(a, tail, p);
    var b := Kept(tail, p);
    if p(a) {
      assert [a] + (b + extra) == ([a] + b) + extra;
    } else {
      assert [] + (b + extra) == ([] + b) + extra;
    }
  }

  /** An element put in front of a sorted list whose keys all exceed its own
      comes after nothing of its key. */
  lemma {:induction false} KeptBeforeAll<T(!new)>(x: T, s: seq<T>, key: T -> int, v: int)
    requires SortedByKey(s, key) && s != [] && key(x) < key(s[0])
    ensures Kept([x] + s, KeyIs(key, v)) == Kept(s, KeyIs(key, v)) + (if key(x) == v then [x] else [])
  {
    var p := KeyIs(key, v);
    KeptCons(x, s, p);
    if key(x) == v {
      KeptNothing(s, p);
    }
  }

  /** `sorted` is stable: the elements of any one key come out in the order
      they came in. */
  lemma {:induction false} SortByKeyStable<T(!new)>(xs: seq<T>, key: T -> int, v: int)
    ensures Kept(SortByKey(xs, key), KeyIs(key, v)) == Kept(xs, KeyIs(key, v))
    decreases |xs|
  {
    if xs != [] {
      var n := |xs| - 1;
      SortByKeyStable(xs[..n], key, v);
      InsertByKeyKept(xs[n], SortByKey(xs[..n], key), key, v);
    }
  }

  /** Dropping elements keeps a list ordered by key. */
  lemma {:induction false} KeptSorted<T(!new)>(xs: seq<T>, keep: T -> bool, key: T -> int)
    requires SortedByKey(xs, key)
    ensures SortedByKey(Kept(xs, keep), key)
    decreases |xs|
  {
    if xs != [] {
      var n := |xs| - 1;
      var front := Kept(xs[..n], keep);
      KeptSorted(xs[..n], keep, key);
      forall y | y in front ensures key(y) <= key(xs[n]) {
        var j :| 0 <= j < n && xs[..n][j] == y;
      }
    }
  }
}
