/** `defaultdict(list)` filled by appending every element of a list under its
    key, as the generator's `module_to_funcs` and `by_file` loops do. */
module Grouping {

  /** `groups[k]` once the loop is over: the elements whose key is `k`, in list
      order. */
  function Having<T(!new)>(xs: seq<T>, key: T -> string, k: string): (r: seq<T>)
    ensures forall x {:trigger x in r} :: x in r <==> x in xs && key(x) == k
    ensures |r| <= |xs|
    decreases |xs|
  {
    if xs == [] then []
    else
      var n := |xs| - 1;
      assert xs == xs[..n] + [xs[n]];
      Having(xs[..n], key, k) + (if key(xs[n]) == k then [xs[n]] else [])
  }

  /** The keys of the first `n` elements. */
  function KeysUpTo<T(!new)>(xs: seq<T>, key: T -> string, n: nat): set<string>
    requires n <= |xs|
  {
    if n == 0 then {} else KeysUpTo(xs, key, n - 1) + {key(xs[n - 1])}
  }

  lemma {:induction false} KeysUpToMember<T(!new)>(xs: seq<T>, key: T -> string, n: nat, k: string)
    requires n <= |xs|
    ensures k in KeysUpTo(xs, key, n) <==> exists j :: 0 <= j < n && key(xs[j]) == k
  {
    if n > 0 {
      KeysUpToMember(xs, key, n - 1, k);
    }
  }

  /** The groups after the first `n` passes of the loop. */
  ghost predicate GroupedUpTo<T(!new)>(xs: seq<T>, key: T -> string, n: nat, m: map<string, seq<T>>)
    requires n <= |xs|
  {
    m.Keys == KeysUpTo(xs, key, n) &&
    forall k :: k in m ==> m[k] == Having(xs[..n], key, k)
  }

  /** The loop `groups[key(x)].append(x)` over `xs`: every key of the list gets
      the elements with that key, in list order, and no other key is present. */
  method GroupBy<T(!new)>(xs: seq<T>, key: T -> string) returns (m: map<string, seq<T>>)
    ensures m.Keys == set x | x in xs :: key(x)
    ensures forall k :: k in m ==> m[k] == Having(xs, key, k)
  {
    m := map[];
    var i := 0;
    while i < |xs|
      invariant 0 <= i <= |xs|
      invariant GroupedUpTo(xs, key, i, m)
    {
      var k := key(xs[i]);
      var cur := if k in m then m[k] else [];
      GroupedStep(xs, key, i, m, cur);
      m := m[k := cur + [xs[i]]];
      i := i + 1;
    }
    GroupedAll(xs, key, m);
  }

  /** One pass appends `xs[i]` to its key's group. */
  lemma GroupedStep<T(!new)>(xs: seq<T>, key: T -> string, i: nat, m: map<string, seq<T>>, cur: seq<T>)
    requires i < |xs| && GroupedUpTo(xs, key, i, m)
    requires cur == if key(xs[i]) in m then m[key(xs[i])] else []
    ensures GroupedUpTo(xs, key, i + 1, m[key(xs[i]) := cur + [xs[i]]])
  {
    var next := m[key(xs[i]) := cur + [xs[i]]];
    if key(xs[i]) !in m {
      HavingAbsent(xs, key, i, key(xs[i]));
    }
    forall k | k in next ensures next[k] == Having(xs[..i + 1], key, k) {
      HavingSnoc(xs, key, i, k);
    }
  }

  /** Once every element is placed, the keys are those of the list. */
  lemma GroupedAll<T(!new)>(xs: seq<T>, key: T -> string, m: map<string, seq<T>>)
    requires GroupedUpTo(xs, key, |xs|, m)
    ensures m.Keys == set x | x in xs :: key(x)
    ensures forall k :: k in m ==> m[k] == Having(xs, key, k)
  {
    assert xs[..|xs|] == xs;
    forall k ensures k in KeysUpTo(xs, key, |xs|) <==> k in set x | x in xs :: key(x) {
      KeysUpToMember(xs, key, |xs|, k);
      if k in set x | x in xs :: key(x) {
        var x :| x in xs && key(x) == k;
        var j :| 0 <= j < |xs| && xs[j] == x;
      }
    }
  }

  /** A key none of the first `i` elements has has an empty group. */
  lemma {:induction false} HavingAbsent<T(!new)>(xs: seq<T>, key: T -> string, i: nat, k: string)
    requires i <= |xs| && k !in KeysUpTo(xs, key, i)
    ensures Having(xs[..i], key, k) == []
  {
    if i > 0 {
      HavingAbsent(xs, key, i - 1, k);
      HavingSnoc(xs, key, i - 1, k);
    } else {
      assert xs[..i] == [];
    }
  }

  /** The group of `k` among the first `i + 1` elements. */
  lemma HavingSnoc<T(!new)>(xs: seq<T>, key: T -> string, i: nat, k: string)
    requires i < |xs|
    ensures Having(xs[..i + 1], key, k) == Having(xs[..i], key, k) + (if key(xs[i]) == k then [xs[i]] else [])
  {
    assert xs[..i + 1][..i] == xs[..i];
  }

  /** Each element occurs in its key's group as often as in the list, and in no
      other group. */
  lemma {:induction false} HavingCount<T(!new)>(xs: seq<T>, key: T -> string, k: string, x: T)
    ensures multiset(Having(xs, key, k))[x] == if key(x) == k then multiset(xs)[x] else 0
    decreases |xs|
  {
    if xs != [] {
      var n := |xs| - 1;
      HavingCount(xs[..n], key, k, x);
      assert xs == xs[..n] + [xs[n]];
    }
  }

  // ------------------------------------------- filtering and mapping loops

  /** `[x for x in xs if keep(x)]` */
  function Kept<T(!new)>(xs: seq<T>, keep: T -> bool): (r: seq<T>)
    ensures forall x {:trigger x in r} :: x in r <==> x in xs && keep(x)
    ensures |r| <= |xs|
    decreases |xs|
  {
    if xs == [] then []
    else
      var n := |xs| - 1;
      assert xs == xs[..n] + [xs[n]];
      Kept(xs[..n], keep) + (if keep(xs[n]) then [xs[n]] else [])
  }

  /** A filter that keeps everything keeps the list as it is. */
  lemma {:induction false} KeptAll<T(!new)>(xs: seq<T>, keep: T -> bool)
    requires forall i :: 0 <= i < |xs| ==> keep(xs[i])
    ensures Kept(xs, keep) == xs
    decreases |xs|
  {
    if xs != [] {
      var n := |xs| - 1;
      KeptAll(xs[..n], keep);
      assert xs == xs[..n] + [xs[n]];
    }
  }

  /** The ids of a list that a dictionary has, in list order: the ids a loop
      with `if id not in data: continue` goes on with. */
  function Present<V>(ids: seq<string>, data: map<string, V>): (r: seq<string>)
    ensures forall id :: id in r <==> id in ids && id in data
  {
    Kept(ids, (id: string) => id in data)
  }

  /** `[f(id, data[id]) for id in ids]` for ids that `data` all has. */
  function ImageIn<V, U>(ids: seq<string>, data: map<string, V>, f: (string, V) -> U): (r: seq<U>)
    requires forall id :: id in ids ==> id in data
    ensures |r| == |ids|
    ensures forall j :: 0 <= j < |ids| ==> r[j] == f(ids[j], data[ids[j]])
  {
    seq(|ids|, j requires 0 <= j < |ids| => f(ids[j], data[ids[j]]))
  }

  /** One more id, which the data has, adds its value. */
  lemma ImageInSnoc<V, U>(ids: seq<string>, data: map<string, V>, f: (string, V) -> U, i: nat)
    requires i < |ids| && forall id :: id in ids ==> id in data
    ensures ImageIn(ids[..i + 1], data, f) == ImageIn(ids[..i], data, f) + [f(ids[i], data[ids[i]])]
  {
    assert forall j :: 0 <= j < i ==> ids[..i + 1][j] == ids[..i][j];
  }

  /** One more id adds its value when the data has it. */
  lemma ImageInStep<V, U>(ids: seq<string>, data: map<string, V>, f: (string, V) -> U, i: nat)
    requires i < |ids|
    ensures ImageIn(Present(ids[..i + 1], data), data, f)
         == ImageIn(Present(ids[..i], data), data, f) + (if ids[i] in data then [f(ids[i], data[ids[i]])] else [])
  {
    assert ids[..i + 1][..i] == ids[..i];
    var p := Present(ids[..i], data);
    if ids[i] in data {
      assert Present(ids[..i + 1], data) == p + [ids[i]];
      var a := ImageIn(p + [ids[i]], data, f);
      var b := ImageIn(p, data, f) + [f(ids[i], data[ids[i]])];
      forall j | 0 <= j < |a| ensures a[j] == b[j] {
        if j < |p| {
          assert (p + [ids[i]])[j] == p[j];
        }
      }
    } else {
      assert Present(ids[..i + 1], data) == p;
    }
  }

  /** The loop `for id in ids: if id not in data: continue; acc.append(f(id,
      data[id]))`: the values of the ids the data has, in list order, after
      `acc`. */
  method AppendPresent<V, U>(ids: seq<string>, data: map<string, V>, f: (string, V) -> U, acc: seq<U>)
    returns (r: seq<U>)
    ensures r == acc + ImageIn(Present(ids, data), data, f)
  {
    r := acc;
    var i := 0;
    while i < |ids|
      invariant 0 <= i <= |ids|
      invariant r == acc + ImageIn(Present(ids[..i], data), data, f)
    {
      ImageInStep(ids, data, f, i);
      if ids[i] in data {
        r := r + [f(ids[i], data[ids[i]])];
      }
      i := i + 1;
    }
    assert ids[..|ids|] == ids;
  }

  /** `{f(x) for x in xs if p(x)}`, built element by element. */
  function SetWhere<T>(xs: seq<T>, p: T -> bool, f: T -> string): set<string>
    decreases |xs|
  {
    if xs == [] then {}
    else
      var x := xs[|xs| - 1];
      SetWhere(xs[..|xs| - 1], p, f) + (if p(x) then {f(x)} else {})
  }

  lemma SetWhereSnoc<T>(xs: seq<T>, p: T -> bool, f: T -> string, i: nat)
    requires i < |xs|
    ensures SetWhere(xs[..i + 1], p, f) == SetWhere(xs[..i], p, f) + (if p(xs[i]) then {f(xs[i])} else {})
  {
    assert xs[..i + 1][..i] == xs[..i];
  }

  /** A value is in the set iff some element that passes the test maps to it. */
  lemma {:induction false} SetWhereMeaning<T>(xs: seq<T>, p: T -> bool, f: T -> string, y: string)
    ensures y in SetWhere(xs, p, f) <==> exists x :: x in xs && p(x) && f(x) == y
    decreases |xs|
  {
    if xs != [] {
      var front := xs[..|xs| - 1];
      var last := xs[|xs| - 1];
      SetWhereMeaning(front, p, f, y);
      assert xs == front + [last];
      if y in SetWhere(xs, p, f) {
        if y in SetWhere(front, p, f) {
          var x :| x in front && p(x) && f(x) == y;
          assert x in xs;
        } else {
          assert last in xs;
        }
      }
      if exists x :: x in xs && p(x) && f(x) == y {
        var x :| x in xs && p(x) && f(x) == y;
        if x != last {
          assert x in front;
        }
      }
    }
  }

  /** `[f(x) for x in xs]` */
  function Image<T, U>(xs: seq<T>, f: T -> U): (r: seq<U>)
    ensures |r| == |xs|
    ensures forall i :: 0 <= i < |xs| ==> r[i] == f(xs[i])
  {
    seq(|xs|, i requires 0 <= i < |xs| => f(xs[i]))
  }

  lemma ImageAppend<T, U>(a: seq<T>, b: seq<T>, f: T -> U)
    ensures Image(a + b, f) == Image(a, f) + Image(b, f)
  {
  }

  /** `[y for x in xs for y in f(x)]` */
  function FlatMap<T, U>(xs: seq<T>, f: T -> seq<U>): seq<U>
    decreases |xs|
  {
    if xs == [] then [] else FlatMap(xs[..|xs| - 1], f) + f(xs[|xs| - 1])
  }

  lemma FlatMapSnoc<T, U>(xs: seq<T>, f: T -> seq<U>, j: nat)
    requires j < |xs|
    ensures FlatMap(xs[..j + 1], f) == FlatMap(xs[..j], f) + f(xs[j])
  {
    assert xs[..j + 1][..j] == xs[..j];
  }

  /** Everything in a flat map comes from some element. */
  lemma {:induction false} FlatMapFrom<T, U>(xs: seq<T>, f: T -> seq<U>, y: U)
    requires y in FlatMap(xs, f)
    ensures exists x :: x in xs && y in f(x)
    decreases |xs|
  {
    var front := xs[..|xs| - 1];
    if y in FlatMap(front, f) {
      FlatMapFrom(front, f, y);
      var x :| x in front && y in f(x);
      assert x in xs;
    } else {
      assert xs[|xs| - 1] in xs;
    }
  }

  /** Everything an element contributes is in the flat map. */
  lemma {:induction false} FlatMapTo<T, U>(xs: seq<T>, f: T -> seq<U>, x: T, y: U)
    requires x in xs && y in f(x)
    ensures y in FlatMap(xs, f)
    decreases |xs|
  {
    var front := xs[..|xs| - 1];
    if x != xs[|xs| - 1] {
      assert xs == front + [xs[|xs| - 1]];
      FlatMapTo(front, f, x, y);
    }
  }

  /** The groups after the first `n` passes of a loop that skips the elements
      `keep` rejects and appends `val(x)` under `key(x)` for the others. */
  ghost predicate GroupedWhereUpTo<T(!new), U>(xs: seq<T>, keep: T -> bool, key: T -> string, val: T -> U,
                                         n: nat, m: map<string, seq<U>>)
    requires n <= |xs|
  {
    (forall k :: k in m <==> exists j :: 0 <= j < n && keep(xs[j]) && key(xs[j]) == k) &&
    forall k :: k in m ==> m[k] == Image(Having(Kept(xs[..n], keep), key, k), val)
  }

  /** The loop `for x in xs: if not keep(x): continue; groups.setdefault(key(x),
      []).append(val(x))`: the groups hold, under each key that a kept element
      has, the values of the kept elements with that key in list order. */
  method GroupWhere<T(!new), U>(xs: seq<T>, keep: T -> bool, key: T -> string, val: T -> U)
    returns (m: map<string, seq<U>>)
    ensures forall k :: k in m <==> exists x :: x in xs && keep(x) && key(x) == k
    ensures forall k :: k in m ==> m[k] == Image(Having(Kept(xs, keep), key, k), val)
  {
    m := map[];
    var i := 0;
    while i < |xs|
      invariant 0 <= i <= |xs|
      invariant GroupedWhereUpTo(xs, keep, key, val, i, m)
    {
      if keep(xs[i]) {
        var k := key(xs[i]);
        var cur := if k in m then m[k] else [];
        GroupedWhereAppend(xs, keep, key, val, i, m, k, cur);
        m := m[k := cur + [val(xs[i])]];
      } else {
        GroupedWhereSkip(xs, keep, key, val, i, m);
      }
      i := i + 1;
    }
    GroupedWhereAll(xs, keep, key, val, m);
  }

  /** Once every element is seen, the keys are those of the kept elements. */
  lemma GroupedWhereAll<T(!new), U>(xs: seq<T>, keep: T -> bool, key: T -> string, val: T -> U,
                                    m: map<string, seq<U>>)
    requires GroupedWhereUpTo(xs, keep, key, val, |xs|, m)
    ensures forall k :: k in m <==> exists x :: x in xs && keep(x) && key(x) == k
    ensures forall k :: k in m ==> m[k] == Image(Having(Kept(xs, keep), key, k), val)
  {
    assert xs[..|xs|] == xs;
    forall k ensures (k in m <==> exists x :: x in xs && keep(x) && key(x) == k) {
      if exists x :: x in xs && keep(x) && key(x) == k {
        var x :| x in xs && keep(x) && key(x) == k;
        var j :| 0 <= j < |xs| && xs[j] == x;
      }
    }
  }

  /** A pass over a rejected element changes nothing. */
  lemma GroupedWhereSkip<T(!new), U>(xs: seq<T>, keep: T -> bool, key: T -> string, val: T -> U,
                                     i: nat, m: map<string, seq<U>>)
    requires i < |xs| && !keep(xs[i]) && GroupedWhereUpTo(xs, keep, key, val, i, m)
    ensures GroupedWhereUpTo(xs, keep, key, val, i + 1, m)
  {
    assert xs[..i + 1] == xs[..i] + [xs[i]];
    assert xs[..i + 1][..i] == xs[..i];
    assert Kept(xs[..i + 1], keep) == Kept(xs[..i], keep);
    forall k ensures (k in m <==> exists j :: 0 <= j < i + 1 && keep(xs[j]) && key(xs[j]) == k) {
      if exists j :: 0 <= j < i + 1 && keep(xs[j]) && key(xs[j]) == k {
        var j :| 0 <= j < i + 1 && keep(xs[j]) && key(xs[j]) == k;
        assert j < i;
      }
    }
  }

  /** A pass over a kept element appends its value to its key's group. */
  lemma GroupedWhereAppend<T(!new), U>(xs: seq<T>, keep: T -> bool, key: T -> string, val: T -> U,
                                       i: nat, m: map<string, seq<U>>, k: string, cur: seq<U>)
    requires i < |xs| && keep(xs[i]) && GroupedWhereUpTo(xs, keep, key, val, i, m)
    requires k == key(xs[i]) && cur == (if k in m then m[k] else [])
    ensures GroupedWhereUpTo(xs, keep, key, val, i + 1, m[k := cur + [val(xs[i])]])
  {
    AppendValues(xs, keep, key, val, i, m);
    AppendKeys(xs, keep, key, val, i, m);
  }

  /** The values half of `GroupedWhereAppend`. */
  lemma AppendValues<T(!new), U>(xs: seq<T>, keep: T -> bool, key: T -> string, val: T -> U,
                                 i: nat, m: map<string, seq<U>>)
    requires i < |xs| && keep(xs[i]) && GroupedWhereUpTo(xs, keep, key, val, i, m)
    ensures var k := key(xs[i]);
      var next := m[k := (if k in m then m[k] else []) + [val(xs[i])]];
      forall k' :: k' in next ==> next[k'] == Image(Having(Kept(xs[..i + 1], keep), key, k'), val)
  {
    var x := xs[i];
    var k := key(x);
    var before := Kept(xs[..i], keep);
    var next := m[k := (if k in m then m[k] else []) + [val(x)]];
    assert xs[..i + 1] == xs[..i] + [x];
    assert xs[..i + 1][..i] == xs[..i];
    assert Kept(xs[..i + 1], keep) == before + [x];
    if k !in m {
      HavingNone(xs, keep, key, val, i, m, k);
    }
    forall k' | k' in next ensures next[k'] == Image(Having(before + [x], key, k'), val) {
      ImageHavingSnoc(before, x, key, val, k');
    }
  }

  /** The values under `k` of a list with one more element. */
  lemma ImageHavingSnoc<T(!new), U>(before: seq<T>, x: T, key: T -> string, val: T -> U, k: string)
    ensures Image(Having(before + [x], key, k), val)
         == Image(Having(before, key, k), val) + (if key(x) == k then [val(x)] else [])
  {
    assert (before + [x])[..|before|] == before;
    ImageAppend(Having(before, key, k), if key(x) == k then [x] else [], val);
  }

  /** The keys half of `GroupedWhereAppend`. */
  lemma AppendKeys<T(!new), U>(xs: seq<T>, keep: T -> bool, key: T -> string, val: T -> U,
                               i: nat, m: map<string, seq<U>>)
    requires i < |xs| && keep(xs[i]) && GroupedWhereUpTo(xs, keep, key, val, i, m)
    ensures var k := key(xs[i]);
      var next := m[k := (if k in m then m[k] else []) + [val(xs[i])]];
      forall k' :: k' in next <==> exists j :: 0 <= j < i + 1 && keep(xs[j]) && key(xs[j]) == k'
  {
    var k := key(xs[i]);
    var next := m[k := (if k in m then m[k] else []) + [val(xs[i])]];
    forall k' ensures (k' in next <==> exists j :: 0 <= j < i + 1 && keep(xs[j]) && key(xs[j]) == k') {
      if exists j :: 0 <= j < i + 1 && keep(xs[j]) && key(xs[j]) == k' {
        var j :| 0 <= j < i + 1 && keep(xs[j]) && key(xs[j]) == k';
        assert j < i || k' == k;
      }
    }
  }

  /** A key no kept element so far has has an empty group. */
  lemma HavingNone<T(!new), U>(xs: seq<T>, keep: T -> bool, key: T -> string, val: T -> U,
                               i: nat, m: map<string, seq<U>>, k: string)
    requires i <= |xs| && GroupedWhereUpTo(xs, keep, key, val, i, m) && k !in m
    ensures Having(Kept(xs[..i], keep), key, k) == []
  {
    KeptHavingWitness(xs, keep, key, i, k);
  }

  /** A non-empty group has a kept element with its key among the first `i`. */
  lemma KeptHavingWitness<T(!new)>(xs: seq<T>, keep: T -> bool, key: T -> string, i: nat, k: string)
    requires i <= |xs|
    ensures Having(Kept(xs[..i], keep), key, k) != [] ==>
      exists j :: 0 <= j < i && keep(xs[j]) && key(xs[j]) == k
  {
    var h := Having(Kept(xs[..i], keep), key, k);
    if h != [] {
      var y := h[0];
      assert y in h;
      assert y in Kept(xs[..i], keep);
      var j :| 0 <= j < i && xs[..i][j] == y;
      assert keep(xs[j]) && key(xs[j]) == k;
    }
  }
}
