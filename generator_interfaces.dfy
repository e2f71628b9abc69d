/** src/generator.py, interface table: every function and global of the metadata
    becomes one entry of interfaces.json. The entries are ordered by file, then by
    line. Each is numbered within its file and carries an id built from the
    project, its module, its file and that number. */
module GeneratorInterfaces {
  import opened Wrappers
  import opened Text
  import opened Ordering
  import opened Grouping
  import Paths
  import opened Generator

  // ------------------------------------------------------------ all_entries

  datatype Kind = FunctionKind | GlobalKind

  /** One of `all_entries`: its kind, its id and what the table reads of its
      record. */
  datatype Item = Item(kind: Kind, id: string, name: string, params: seq<ParamIn>,
                       callers: seq<string>, callees: seq<string>)

  function FunctionItem(f: FnIn): Item {
    Item(FunctionKind, f.id, f.name, f.params, f.callers, f.callees)
  }

  function GlobalItem(g: GlobIn): Item {
    Item(GlobalKind, g.id, g.name, [], [], [])
  }

  /** The functions, then the globals, each in list order. */
  function ItemsOf(fs: seq<FnIn>, gs: seq<GlobIn>): (r: seq<Item>)
    ensures |r| == |fs| + |gs|
    ensures forall i :: 0 <= i < |fs| ==> r[i] == FunctionItem(fs[i])
    ensures forall i :: 0 <= i < |gs| ==> r[|fs| + i] == GlobalItem(gs[i])
  {
    seq(|fs|, i requires 0 <= i < |fs| => FunctionItem(fs[i])) +
    seq(|gs|, i requires 0 <= i < |gs| => GlobalItem(gs[i]))
  }

  /** The two loops that fill `all_entries`. */
  method AllItems(fs: seq<FnIn>, gs: seq<GlobIn>) returns (items: seq<Item>)
    ensures items == ItemsOf(fs, gs)
  {
    items := [];
    var i := 0;
    while i < |fs|
      invariant 0 <= i <= |fs| && |items| == i
      invariant forall j :: 0 <= j < i ==> items[j] == FunctionItem(fs[j])
    {
      items := items + [FunctionItem(fs[i])];
      i := i + 1;
    }
    i := 0;
    while i < |gs|
      invariant 0 <= i <= |gs| && |items| == |fs| + i
      invariant forall j :: 0 <= j < |fs| ==> items[j] == FunctionItem(fs[j])
      invariant forall j :: 0 <= j < i ==> items[|fs| + j] == GlobalItem(gs[j])
    {
      items := items + [GlobalItem(gs[i])];
      i := i + 1;
    }
    assert forall j :: 0 <= j < |items| ==> items[j] == ItemsOf(fs, gs)[j];
  }

  // ------------------------------------------------------- file and line

  /** `iid.rsplit(":", 1)[0]` */
  function IdPath(id: string): string {
    RSplitOnce(id, ':')[0]
  }

  /** The `by_file` key of an entry: the normalised path part of its id. */
  function FileKey(os: Paths.Os, base: string): Item -> string {
    (it: Item) => Paths.NormPath(os, IdPath(it.id), base)
  }

  /** The sort key of an entry within its file (only read when every id has one). */
  function LineKey(): Item -> int {
    (it: Item) => TrailingInt(it.id).GetOr(0)
  }

  /** Every id has a line, so no sort key raises. */
  predicate LinesParse(items: seq<Item>) {
    forall i :: 0 <= i < |items| ==> TrailingInt(items[i].id).Some?
  }

  /** `sorted(by_file.keys())` */
  function Files(os: Paths.Os, base: string, items: seq<Item>): (r: seq<string>)
    ensures StrictlySorted(r)
    ensures forall fp :: fp in r <==> fp in set it | it in items :: FileKey(os, base)(it)
  {
    SortSetSorted(set it | it in items :: FileKey(os, base)(it));
    SortSet(set it | it in items :: FileKey(os, base)(it))
  }

  /** `sorted(by_file[fp], key=line)`: the entries of one file in ascending line
      order (a stable sort). */
  function FileGroup(os: Paths.Os, base: string, items: seq<Item>, fp: string): seq<Item> {
    SortByKey(Having(items, FileKey(os, base), fp), LineKey())
  }

  // ------------------------------------------------------------- ordered

  /** The line-sorted entries of each of `files`, in that order. */
  function Groups(os: Paths.Os, base: string, items: seq<Item>, files: seq<string>): (r: seq<seq<Item>>)
    ensures |r| == |files|
    ensures forall k :: 0 <= k < |files| ==> r[k] == FileGroup(os, base, items, files[k])
  {
    seq(|files|, k requires 0 <= k < |files| => FileGroup(os, base, items, files[k]))
  }

  /** The groups one after the other, as `ordered.extend` builds them. */
  function Concat(gs: seq<seq<Item>>): seq<Item>
    decreases |gs|
  {
    if gs == [] then [] else Concat(gs[..|gs| - 1]) + gs[|gs| - 1]
  }

  /** `ordered`: the groups of the sorted files, one after the other. */
  function Ordered(os: Paths.Os, base: string, items: seq<Item>): seq<Item> {
    Concat(Groups(os, base, items, Files(os, base, items)))
  }

  lemma ConcatSnoc(gs: seq<seq<Item>>, i: nat)
    requires i < |gs|
    ensures Concat(gs[..i + 1]) == Concat(gs[..i]) + gs[i]
  {
    assert gs[..i + 1][..i] == gs[..i];
  }

  /** `by_file` holds, under each of `files`, that file's entries in list order. */
  ghost predicate ByFile(os: Paths.Os, base: string, items: seq<Item>, byFile: map<string, seq<Item>>,
                         files: seq<string>)
  {
    forall fp :: fp in files ==> fp in byFile && byFile[fp] == Having(items, FileKey(os, base), fp)
  }

  /** `sorted(by_file[fp], key=line)` */
  function SortGroup(fp: string, g: seq<Item>): seq<Item> {
    SortByKey(g, LineKey())
  }

  /** The groups the loops read from `by_file` are the groups of the files. */
  lemma GroupsOfByFile(os: Paths.Os, base: string, items: seq<Item>, byFile: map<string, seq<Item>>,
                       files: seq<string>)
    requires ByFile(os, base, items, byFile, files)
    ensures forall fp :: fp in files ==> fp in byFile
    ensures ImageIn(files, byFile, SortGroup) == Groups(os, base, items, files)
  {
    var a := ImageIn(files, byFile, SortGroup);
    var b := Groups(os, base, items, files);
    forall k | 0 <= k < |files| ensures a[k] == b[k] {
      assert files[k] in files;
    }
  }

  /** The loop `for fp in sorted(by_file.keys()): ordered.extend(sorted(...))`. */
  method OrderItems(byFile: map<string, seq<Item>>, files: seq<string>) returns (ordered: seq<Item>)
    requires forall fp :: fp in files ==> fp in byFile
    ensures ordered == Concat(ImageIn(files, byFile, SortGroup))
  {
    ghost var gs := ImageIn(files, byFile, SortGroup);
    ordered := [];
    var i := 0;
    while i < |files|
      invariant 0 <= i <= |files|
      invariant ordered == Concat(gs[..i])
    {
      ConcatSnoc(gs, i);
      ordered := ordered + SortByKey(byFile[files[i]], LineKey());
      i := i + 1;
    }
    assert gs[..i] == gs;
  }

  // ----------------------------------------------------- interface_index

  /** `enumerate(entries, 1)` written into `m`: each id gets its 1-based position,
      a later position of the same id overwriting an earlier one. */
  function NumberGroup(m: map<string, nat>, g: seq<Item>): map<string, nat>
    decreases |g|
  {
    if g == [] then m
    else NumberGroup(m, g[..|g| - 1])[g[|g| - 1].id := |g|]
  }

  /** Every group numbered in turn, starting from an empty index. */
  function NumberAll(gs: seq<seq<Item>>): map<string, nat>
    decreases |gs|
  {
    if gs == [] then map[] else NumberGroup(NumberAll(gs[..|gs| - 1]), gs[|gs| - 1])
  }

  /** `interface_index` */
  function IndexSpec(os: Paths.Os, base: string, items: seq<Item>): map<string, nat> {
    NumberAll(Groups(os, base, items, Files(os, base, items)))
  }

  /** The inner loop `for idx, (_, iid, _) in enumerate(entries, 1)`. */
  method NumberInto(m: map<string, nat>, g: seq<Item>) returns (r: map<string, nat>)
    ensures r == NumberGroup(m, g)
  {
    r := m;
    var i := 0;
    while i < |g|
      invariant 0 <= i <= |g|
      invariant r == NumberGroup(m, g[..i])
    {
      assert g[..i + 1][..i] == g[..i];
      r := r[g[i].id := i + 1];
      i := i + 1;
    }
    assert g[..i] == g;
  }

  lemma NumberAllSnoc(gs: seq<seq<Item>>, i: nat)
    requires i < |gs|
    ensures NumberAll(gs[..i + 1]) == NumberGroup(NumberAll(gs[..i]), gs[i])
  {
    assert gs[..i + 1][..i] == gs[..i];
  }

  /** The outer loop of `interface_index`, which sorts each file's entries again. */
  method IndexItems(byFile: map<string, seq<Item>>, files: seq<string>) returns (idx: map<string, nat>)
    requires forall fp :: fp in files ==> fp in byFile
    ensures idx == NumberAll(ImageIn(files, byFile, SortGroup))
  {
    ghost var gs := ImageIn(files, byFile, SortGroup);
    idx := map[];
    var i := 0;
    while i < |files|
      invariant 0 <= i <= |files|
      invariant idx == NumberAll(gs[..i])
    {
      NumberAllSnoc(gs, i);
      idx := NumberInto(idx, SortByKey(byFile[files[i]], LineKey()));
      i := i + 1;
    }
    assert gs[..i] == gs;
  }

  // ------------------------------------------------ properties of ordered

  /** An entry of a file's group belongs to that file. */
  lemma FileGroupMember(os: Paths.Os, base: string, items: seq<Item>, fp: string, x: Item)
    requires x in FileGroup(os, base, items, fp)
    ensures x in items && FileKey(os, base)(x) == fp
  {
    var key := FileKey(os, base);
    var h := Having(items, key, fp);
    var g := SortByKey(h, LineKey());
    assert g == FileGroup(os, base, items, fp);
    assert x in multiset(g);
    assert x in h;
  }

  /** An entry of the concatenation comes from one of the groups. */
  lemma {:induction false} ConcatMember(gs: seq<seq<Item>>, x: Item) returns (k: nat)
    requires x in Concat(gs)
    ensures k < |gs| && x in gs[k]
    decreases |gs|
  {
    var n := |gs| - 1;
    if x in Concat(gs[..n]) {
      k := ConcatMember(gs[..n], x);
      assert gs[..n][k] == gs[k];
    } else {
      k := n;
    }
  }

  /** An entry found in group `k0` and in no other occurs in the concatenation as
      often as in that group; one found in no group does not occur. */
  lemma {:induction false} ConcatCount(gs: seq<seq<Item>>, x: Item, k0: int)
    requires forall k :: 0 <= k < |gs| && k != k0 ==> x !in gs[k]
    ensures multiset(Concat(gs))[x] == if 0 <= k0 < |gs| then multiset(gs[k0])[x] else 0
    decreases |gs|
  {
    if gs != [] {
      var n := |gs| - 1;
      ConcatCount(gs[..n], x, if k0 == n then -1 else k0);
      if k0 != n {
        assert x !in multiset(gs[n]);
      }
      if 0 <= k0 < n {
        assert gs[..n][k0] == gs[k0];
      }
    }
  }

  /** An entry lies only in the group of its own file. */
  lemma OnlyOwnGroup(os: Paths.Os, base: string, items: seq<Item>, files: seq<string>, k0: int, x: Item)
    requires 0 <= k0 < |files| ==> files[k0] == FileKey(os, base)(x)
    requires FileKey(os, base)(x) in files ==> 0 <= k0 < |files|
    requires forall i, j :: 0 <= i < j < |files| ==> files[i] != files[j]
    ensures forall k :: 0 <= k < |files| && k != k0 ==> x !in Groups(os, base, items, files)[k]
  {
    var gs := Groups(os, base, items, files);
    forall k | 0 <= k < |gs| && k != k0 ensures x !in gs[k] {
      if x in gs[k] {
        FileGroupMember(os, base, items, files[k], x);
      }
    }
  }

  /** Each entry occurs in `ordered` as often as in `all_entries`. */
  lemma OrderedCount(os: Paths.Os, base: string, items: seq<Item>, x: Item)
    ensures multiset(Ordered(os, base, items))[x] == multiset(items)[x]
  {
    var files := Files(os, base, items);
    var fx := FileKey(os, base)(x);
    StrictlySortedDistinct(files);
    var k0: int := -1;
    if fx in files {
      k0 :| 0 <= k0 < |files| && files[k0] == fx;
      HavingCount(items, FileKey(os, base), fx, x);
    }
    OnlyOwnGroup(os, base, items, files, k0, x);
    ConcatCount(Groups(os, base, items, files), x, k0);
  }

  /** `ordered` is a permutation of `all_entries`. */
  lemma OrderedIsPermutation(os: Paths.Os, base: string, items: seq<Item>)
    ensures multiset(Ordered(os, base, items)) == multiset(items)
    ensures |Ordered(os, base, items)| == |items|
  {
    forall x ensures multiset(Ordered(os, base, items))[x] == multiset(items)[x] {
      OrderedCount(os, base, items, x);
    }
    assert multiset(Ordered(os, base, items)) == multiset(items);
    assert |multiset(Ordered(os, base, items))| == |multiset(items)|;
  }

  /** Of two entries, the earlier has the smaller key, or the same key and a line
      that is not larger. */
  ghost predicate KeyLineOrdered(key: Item -> string, line: Item -> int, o: seq<Item>) {
    forall i, j :: 0 <= i < j < |o| ==>
      LexLess(key(o[i]), key(o[j])) || (key(o[i]) == key(o[j]) && line(o[i]) <= line(o[j]))
  }

  /** Of two entries, the earlier has the smaller file or the same file and a line
      that is not larger. */
  ghost predicate FileLineOrdered(os: Paths.Os, base: string, o: seq<Item>) {
    KeyLineOrdered(FileKey(os, base), LineKey(), o)
  }

  /** Appending one key's line-sorted entries after entries of smaller keys keeps
      the order. */
  lemma ConcatOrdered(key: Item -> string, line: Item -> int, a: seq<Item>, g: seq<Item>, fp: string)
    requires KeyLineOrdered(key, line, a) && SortedByKey(g, line)
    requires forall x :: x in g ==> key(x) == fp
    requires forall x :: x in a ==> LexLess(key(x), fp)
    ensures KeyLineOrdered(key, line, a + g)
  {
    var o := a + g;
    forall i, j | 0 <= i < j < |o| ensures
      LexLess(key(o[i]), key(o[j])) || (key(o[i]) == key(o[j]) && line(o[i]) <= line(o[j]))
    {
      if j < |a| {
        assert o[i] == a[i] && o[j] == a[j];
      } else if i >= |a| {
        assert o[i] == g[i - |a|] && o[j] == g[j - |a|];
      } else {
        assert o[i] == a[i] && o[j] == g[j - |a|];
        assert a[i] in a && g[j - |a|] in g;
      }
    }
  }

  /** Groups of increasing keys, each sorted by line and holding entries of its
      own key only, concatenate to an ordered list. */
  lemma {:induction false} GroupsOrdered(key: Item -> string, line: Item -> int, gs: seq<seq<Item>>,
                                         files: seq<string>)
    requires |gs| == |files| && StrictlySorted(files)
    requires forall k :: 0 <= k < |gs| ==> SortedByKey(gs[k], line)
    requires forall k, x :: 0 <= k < |gs| && x in gs[k] ==> key(x) == files[k]
    ensures KeyLineOrdered(key, line, Concat(gs))
    decreases |gs|
  {
    if gs != [] {
      var n := |gs| - 1;
      var prefix := gs[..n];
      assert StrictlySorted(files[..n]);
      forall k, x | 0 <= k < n && x in prefix[k] ensures key(x) == files[..n][k] {
        assert prefix[k] == gs[k];
      }
      GroupsOrdered(key, line, prefix, files[..n]);
      forall x | x in Concat(prefix) ensures LexLess(key(x), files[n]) {
        var k := ConcatMember(prefix, x);
        assert prefix[k] == gs[k];
      }
      ConcatOrdered(key, line, Concat(prefix), gs[n], files[n]);
    }
  }

  /** `ordered` runs by file path, then by line within a file. */
  lemma OrderedByFileThenLine(os: Paths.Os, base: string, items: seq<Item>)
    ensures FileLineOrdered(os, base, Ordered(os, base, items))
  {
    var files := Files(os, base, items);
    var gs := Groups(os, base, items, files);
    forall k, x | 0 <= k < |gs| && x in gs[k] ensures FileKey(os, base)(x) == files[k] {
      FileGroupMember(os, base, items, files[k], x);
    }
    GroupsOrdered(FileKey(os, base), LineKey(), gs, files);
  }

  // ------------------------------------------- properties of interface_index

  /** No two entries share an id. */
  predicate IdsDistinct(items: seq<Item>) {
    forall i, j :: 0 <= i < j < |items| ==> items[i].id != items[j].id
  }

  /** Numbering a group leaves an id outside it as it was. */
  lemma {:induction false} NumberGroupKeeps(m: map<string, nat>, g: seq<Item>, id: string)
    requires forall x :: x in g ==> x.id != id
    ensures id in NumberGroup(m, g) <==> id in m
    ensures id in m ==> NumberGroup(m, g)[id] == m[id]
    decreases |g|
  {
    if g != [] {
      NumberGroupKeeps(m, g[..|g| - 1], id);
    }
  }

  /** In a group without repeated ids, each id gets its 1-based position. */
  lemma {:induction false} NumberGroupPosition(m: map<string, nat>, g: seq<Item>, p: nat)
    requires IdsDistinct(g) && p < |g|
    ensures g[p].id in NumberGroup(m, g) && NumberGroup(m, g)[g[p].id] == p + 1
    decreases |g|
  {
    var n := |g| - 1;
    if p < n {
      assert IdsDistinct(g[..n]);
      NumberGroupPosition(m, g[..n], p);
      assert g[n].id != g[p].id;
    }
  }

  /** An id that no other group holds keeps the position its own group gives it. */
  lemma {:induction false} NumberAllPosition(gs: seq<seq<Item>>, k: nat, p: nat)
    requires k < |gs| && p < |gs[k]| && IdsDistinct(gs[k])
    requires forall k', y :: 0 <= k' < |gs| && k' != k && y in gs[k'] ==> y.id != gs[k][p].id
    ensures gs[k][p].id in NumberAll(gs) && NumberAll(gs)[gs[k][p].id] == p + 1
    decreases |gs|
  {
    var n := |gs| - 1;
    var prefix := gs[..n];
    if k == n {
      NumberGroupPosition(NumberAll(prefix), gs[n], p);
    } else {
      assert prefix[k] == gs[k];
      NumberAllPosition(prefix, k, p);
      NumberGroupKeeps(NumberAll(prefix), gs[n], gs[k][p].id);
    }
  }

  /** With distinct ids, no entry occurs twice. */
  lemma {:induction false} CountAtMostOne(items: seq<Item>, x: Item)
    requires IdsDistinct(items)
    ensures multiset(items)[x] <= 1
    decreases |items|
  {
    if items != [] {
      var n := |items| - 1;
      assert IdsDistinct(items[..n]);
      CountAtMostOne(items[..n], x);
      assert items == items[..n] + [items[n]];
      if items[n] == x {
        assert x !in items[..n];
      }
    }
  }

  /** An element found at two positions occurs at least twice. */
  lemma RepeatCount(s: seq<Item>, i: nat, j: nat)
    requires i < j < |s| && s[i] == s[j]
    ensures multiset(s)[s[i]] >= 2
  {
    assert s == s[..j] + [s[j]] + s[j + 1..];
    assert s[i] in s[..j];
  }

  /** The entries of one file, sorted by line, have distinct ids when all entries do. */
  lemma GroupIdsDistinct(os: Paths.Os, base: string, items: seq<Item>, fp: string)
    requires IdsDistinct(items)
    ensures IdsDistinct(FileGroup(os, base, items, fp))
  {
    var g := FileGroup(os, base, items, fp);
    forall i, j | 0 <= i < j < |g| ensures g[i].id != g[j].id {
      if g[i].id == g[j].id {
        FileGroupMember(os, base, items, fp, g[i]);
        FileGroupMember(os, base, items, fp, g[j]);
        var a :| 0 <= a < |items| && items[a] == g[i];
        var b :| 0 <= b < |items| && items[b] == g[j];
        assert a == b;
        RepeatCount(g, i, j);
        HavingCount(items, FileKey(os, base), fp, g[i]);
        CountAtMostOne(items, g[i]);
        assert false;
      }
    }
  }

  /** The file key of an entry depends on its id alone. */
  lemma SameIdSameFile(os: Paths.Os, base: string, x: Item, y: Item)
    requires x.id == y.id
    ensures FileKey(os, base)(x) == FileKey(os, base)(y)
  {
  }

  /** The groups of the other files hold no entry with the id of an entry of
      file `k`. */
  lemma OnlyOwnFileHasId(os: Paths.Os, base: string, items: seq<Item>, files: seq<string>, k: nat, x: Item)
    requires k < |files| && FileKey(os, base)(x) == files[k]
    requires forall i, j :: 0 <= i < j < |files| ==> files[i] != files[j]
    ensures forall k', y :: 0 <= k' < |files| && k' != k && y in Groups(os, base, items, files)[k'] ==> y.id != x.id
  {
    var gs := Groups(os, base, items, files);
    forall k': nat, y: Item | k' < |gs| && k' != k && y in gs[k'] ensures y.id != x.id {
      FileGroupMember(os, base, items, files[k'], y);
      if y.id == x.id {
        SameIdSameFile(os, base, x, y);
      }
    }
  }

  /** `interface_index` numbers each file's entries 1, 2, ... in line order. */
  lemma IndexNumbersWithinFile(os: Paths.Os, base: string, items: seq<Item>, fp: string, p: nat)
    requires IdsDistinct(items)
    requires fp in Files(os, base, items) && p < |FileGroup(os, base, items, fp)|
    ensures FileGroup(os, base, items, fp)[p].id in IndexSpec(os, base, items)
    ensures IndexSpec(os, base, items)[FileGroup(os, base, items, fp)[p].id] == p + 1
  {
    var files := Files(os, base, items);
    var gs := Groups(os, base, items, files);
    StrictlySortedDistinct(files);
    var k :| 0 <= k < |files| && files[k] == fp;
    var x := gs[k][p];
    FileGroupMember(os, base, items, fp, x);
    GroupIdsDistinct(os, base, items, fp);
    OnlyOwnFileHasId(os, base, items, files, k, x);
    NumberAllPosition(gs, k, p);
  }

  // ------------------------------------------------------- interfaces_data

  /** An entry of "parameters": `p.get("name", "")`, `p.get("type", "")` and the
      built-in range of that type. */
  datatype ParamOut = ParamOut(name: string, typeName: string, range: string)

  function ParamOf(p: ParamIn): ParamOut {
    var t := p.typeName.GetOr("");
    ParamOut(p.name.GetOr(""), t, Paths.GetRangeForType(t))
  }

  /** `params_with_range` */
  function ParamsOf(ps: seq<ParamIn>): (r: seq<ParamOut>)
    ensures |r| == |ps|
    ensures forall i :: 0 <= i < |ps| ==> r[i] == ParamOf(ps[i])
  {
    seq(|ps|, i requires 0 <= i < |ps| => ParamOf(ps[i]))
  }

  /** One entry of interfaces.json. */
  datatype InterfaceOut = InterfaceOut(interfaceId: string, interfaceName: string, interfaceType: Kind,
                                       parameters: seq<ParamOut>, callerUnits: seq<string>,
                                       calleesUnits: seq<string>)

  /** `os.path.splitext(os.path.basename(fp))[0].upper()` for the path part of an id. */
  function FileCode(os: Paths.Os, id: string): string {
    Upper(Splitext(Basename(IdPath(id), os.seps), os.seps).0)
  }

  /** The module of an entry: its normalised path made relative to the base (the
      path part of the id itself where `relpath` fails), then `get_module_name`. */
  function InterfaceModule(os: Paths.Os, base: string, id: string): string {
    var fp := IdPath(id);
    var rel := match os.relpath(Paths.NormPath(os, fp, base), base)
      case Some(r) => r
      case None => fp;
    Paths.GetModuleName(os, ReplaceChar(rel, '\\', '/'), base)
  }

  /** `interface_index.get(iid, 0)` */
  function IndexOf(idx: map<string, nat>, id: string): nat {
    if id in idx then idx[id] else 0
  }

  /** `f"IF_{project_code}_{module_name.upper()}_{file_code}_{idx_code}"` */
  function InterfaceId(os: Paths.Os, base: string, projectCode: string, idx: map<string, nat>, id: string): string {
    "IF_" + projectCode + "_" + Upper(InterfaceModule(os, base, id)) + "_" + FileCode(os, id) + "_" + Pad2(IndexOf(idx, id))
  }

  /** `f"{file_code}_{base_name}" if base_name else file_code` */
  function InterfaceName(os: Paths.Os, it: Item): string {
    if it.name != "" then FileCode(os, it.id) + "_" + it.name else FileCode(os, it.id)
  }

  /** `unit_by_file.get(cf, "")` */
  function UnitOfFile(ubf: map<string, string>, cf: string): string {
    if cf in ubf then ubf[cf] else ""
  }

  /** The units of a set of files. */
  function FileUnits(ubf: map<string, string>, files: set<string>): set<string> {
    set cf | cf in files :: UnitOfFile(ubf, cf)
  }

  /** The unit set after the first `n` names: the unit of every file that defines
      one of them. */
  function NameUnits(q2f: map<string, set<string>>, ubf: map<string, string>, names: seq<string>, n: nat): set<string>
    requires n <= |names|
  {
    if n == 0 then {} else NameUnits(q2f, ubf, names, n - 1) + FileUnits(ubf, Lookup(q2f, names[n - 1]))
  }

  /** `sorted(caller_units_set)` once "" is discarded. */
  function UnitList(q2f: map<string, set<string>>, ubf: map<string, string>, names: seq<string>): seq<string> {
    SortSet(NameUnits(q2f, ubf, names, |names|) - {""})
  }

  /** The interfaces.json entry of one of `ordered`. */
  function InterfaceOf(os: Paths.Os, base: string, projectCode: string, q2f: map<string, set<string>>,
                       ubf: map<string, string>, idx: map<string, nat>, it: Item): InterfaceOut {
    var id := InterfaceId(os, base, projectCode, idx, it.id);
    match it.kind
    case FunctionKind =>
      InterfaceOut(id, InterfaceName(os, it), FunctionKind, ParamsOf(it.params),
        UnitList(q2f, ubf, it.callers), UnitList(q2f, ubf, it.callees))
    case GlobalKind =>
      InterfaceOut(id, InterfaceName(os, it), GlobalKind, [], [], [])
  }

  /** `for cf in qualified_to_file.get(cn, []): units.add(unit_by_file.get(cf, ""))` */
  method AddFileUnits(ubf: map<string, string>, files: set<string>, acc: set<string>) returns (r: set<string>)
    ensures r == acc + FileUnits(ubf, files)
  {
    r := acc;
    var rest := files;
    while rest != {}
      invariant rest <= files
      invariant r == acc + FileUnits(ubf, files - rest)
      decreases |rest|
    {
      var cf :| cf in rest;
      FileUnitsStep(ubf, files, rest, cf);
      r := r + {UnitOfFile(ubf, cf)};
      rest := rest - {cf};
    }
    assert files - rest == files;
  }

  lemma FileUnitsStep(ubf: map<string, string>, files: set<string>, rest: set<string>, cf: string)
    requires cf in rest && rest <= files
    ensures FileUnits(ubf, files - (rest - {cf})) == FileUnits(ubf, files - rest) + {UnitOfFile(ubf, cf)}
  {
    assert files - (rest - {cf}) == (files - rest) + {cf};
  }

  /** `for cn in callers: ...` for one function entry. */
  method CollectNameUnits(q2f: map<string, set<string>>, ubf: map<string, string>, names: seq<string>)
    returns (r: set<string>)
    ensures r == NameUnits(q2f, ubf, names, |names|)
  {
    r := {};
    var i := 0;
    while i < |names|
      invariant 0 <= i <= |names|
      invariant r == NameUnits(q2f, ubf, names, i)
    {
      r := AddFileUnits(ubf, Lookup(q2f, names[i]), r);
      i := i + 1;
    }
  }

  /** One pass of the loop over `ordered`. */
  method InterfaceFor(os: Paths.Os, base: string, projectCode: string, q2f: map<string, set<string>>,
                      ubf: map<string, string>, idx: map<string, nat>, it: Item) returns (out: InterfaceOut)
    ensures out == InterfaceOf(os, base, projectCode, q2f, ubf, idx, it)
  {
    var id := InterfaceId(os, base, projectCode, idx, it.id);
    var name := InterfaceName(os, it);
    if it.kind == FunctionKind {
      var callerUnits := CollectNameUnits(q2f, ubf, it.callers);
      var calleeUnits := CollectNameUnits(q2f, ubf, it.callees);
      out := InterfaceOut(id, name, FunctionKind, ParamsOf(it.params),
        SortSet(callerUnits - {""}), SortSet(calleeUnits - {""}));
    } else {
      out := InterfaceOut(id, name, GlobalKind, [], [], []);
    }
  }

  /** The loop over `ordered` that fills `interfaces_data`. */
  method InterfacesData(os: Paths.Os, base: string, projectCode: string, q2f: map<string, set<string>>,
                        ubf: map<string, string>, idx: map<string, nat>, ordered: seq<Item>)
    returns (data: seq<InterfaceOut>)
    ensures |data| == |ordered|
    ensures forall j :: 0 <= j < |ordered| ==> data[j] == InterfaceOf(os, base, projectCode, q2f, ubf, idx, ordered[j])
  {
    ghost var outOf := it => InterfaceOf(os, base, projectCode, q2f, ubf, idx, it);
    data := [];
    var i := 0;
    while i < |ordered|
      invariant 0 <= i <= |ordered|
      invariant |data| == i
      invariant forall j :: 0 <= j < i ==> data[j] == outOf(ordered[..i][j])
    {
      var out := InterfaceFor(os, base, projectCode, q2f, ubf, idx, ordered[i]);
      MappedSnoc(ordered[..i + 1], data, out, outOf);
      data := data + [out];
      i := i + 1;
    }
    assert ordered[..i] == ordered;
  }

  /** One entry per element of `ordered`, numbered by `idx`. */
  function InterfacesOver(os: Paths.Os, base: string, projectCode: string, q2f: map<string, set<string>>,
                          ubf: map<string, string>, idx: map<string, nat>, ordered: seq<Item>): (r: seq<InterfaceOut>)
    ensures |r| == |ordered|
    ensures forall j :: 0 <= j < |ordered| ==> r[j] == InterfaceOf(os, base, projectCode, q2f, ubf, idx, ordered[j])
  {
    seq(|ordered|, j requires 0 <= j < |ordered| => InterfaceOf(os, base, projectCode, q2f, ubf, idx, ordered[j]))
  }

  /** interfaces.json's list. */
  function InterfacesSpec(os: Paths.Os, base: string, projectCode: string, q2f: map<string, set<string>>,
                          ubf: map<string, string>, items: seq<Item>): seq<InterfaceOut>
  {
    InterfacesOver(os, base, projectCode, q2f, ubf, IndexSpec(os, base, items), Ordered(os, base, items))
  }

  /** The interface table section of the generator: None where a sort key raises
      (an id without ":" or whose line part is not an integer). */
  method InterfaceTable(os: Paths.Os, base: string, projectCode: string, q2f: map<string, set<string>>,
                        ubf: map<string, string>, fs: seq<FnIn>, gs: seq<GlobIn>)
    returns (r: Option<seq<InterfaceOut>>)
    ensures r.None? <==> !LinesParse(ItemsOf(fs, gs))
    ensures r.Some? ==> r.value == InterfacesSpec(os, base, projectCode, q2f, ubf, ItemsOf(fs, gs))
  {
    var items := AllItems(fs, gs);
    if !LinesParse(items) {
      return None;
    }
    var ordered, idx := OrderAndIndex(os, base, items);
    var data := InterfacesData(os, base, projectCode, q2f, ubf, idx, ordered);
    assert data == InterfacesOver(os, base, projectCode, q2f, ubf, idx, ordered);
    return Some(data);
  }

  /** `by_file`, then `ordered` and `interface_index` from it. */
  method OrderAndIndex(os: Paths.Os, base: string, items: seq<Item>)
    returns (ordered: seq<Item>, idx: map<string, nat>)
    ensures ordered == Ordered(os, base, items)
    ensures idx == IndexSpec(os, base, items)
  {
    var byFile := GroupBy(items, FileKey(os, base));
    var files := SortSet(byFile.Keys);
    LoopsOverFiles(os, base, items, byFile, files);
    ordered := OrderItems(byFile, files);
    OrderedOfGroups(os, base, items, ImageIn(files, byFile, SortGroup));
    idx := IndexItems(byFile, files);
    IndexOfGroups(os, base, items, ImageIn(files, byFile, SortGroup));
  }

  /** What the `by_file` loop leaves is what the two loops over its sorted keys
      need: every sorted key has a group, and the sorted groups read from
      `by_file` are the line-sorted groups of the sorted entry files. */
  lemma LoopsOverFiles(os: Paths.Os, base: string, items: seq<Item>, byFile: map<string, seq<Item>>,
                       files: seq<string>)
    requires byFile.Keys == set x | x in items :: FileKey(os, base)(x)
    requires forall k :: k in byFile ==> byFile[k] == Having(items, FileKey(os, base), k)
    requires files == SortSet(byFile.Keys)
    ensures forall fp :: fp in files ==> fp in byFile
    ensures ImageIn(files, byFile, SortGroup) == Groups(os, base, items, Files(os, base, items))
  {
    FilesOfGroups(os, base, items, byFile.Keys);
    GroupedByFile(os, base, items, byFile);
    GroupsOfByFile(os, base, items, byFile, files);
  }

  lemma OrderedOfGroups(os: Paths.Os, base: string, items: seq<Item>, gs: seq<seq<Item>>)
    requires gs == Groups(os, base, items, Files(os, base, items))
    ensures Concat(gs) == Ordered(os, base, items)
  {
  }

  lemma IndexOfGroups(os: Paths.Os, base: string, items: seq<Item>, gs: seq<seq<Item>>)
    requires gs == Groups(os, base, items, Files(os, base, items))
    ensures NumberAll(gs) == IndexSpec(os, base, items)
  {
  }

  /** The groups built by the `by_file` loop serve every sorted file. */
  lemma GroupedByFile(os: Paths.Os, base: string, items: seq<Item>, byFile: map<string, seq<Item>>)
    requires forall k :: k in byFile ==> byFile[k] == Having(items, FileKey(os, base), k)
    ensures ByFile(os, base, items, byFile, SortSet(byFile.Keys))
  {
  }

  /** `sorted(by_file.keys())` is the sorted list of entry files. */
  lemma FilesOfGroups(os: Paths.Os, base: string, items: seq<Item>, keys: set<string>)
    requires keys == set x | x in items :: FileKey(os, base)(x)
    ensures SortSet(keys) == Files(os, base, items)
  {
  }

  // --------------------------------------------- properties of the entries

  lemma {:induction false} NameUnitsMember(q2f: map<string, set<string>>, ubf: map<string, string>,
                                          names: seq<string>, n: nat, u: string)
    requires n <= |names|
    ensures u in NameUnits(q2f, ubf, names, n) <==>
      exists i, cf :: 0 <= i < n && cf in Lookup(q2f, names[i]) && UnitOfFile(ubf, cf) == u
  {
    if n > 0 {
      NameUnitsMember(q2f, ubf, names, n - 1, u);
      if u in FileUnits(ubf, Lookup(q2f, names[n - 1])) {
        var cf :| cf in Lookup(q2f, names[n - 1]) && UnitOfFile(ubf, cf) == u;
        assert 0 <= n - 1 < n && cf in Lookup(q2f, names[n - 1]) && UnitOfFile(ubf, cf) == u;
      }
    }
  }

  /** A function's callerUnits (or calleesUnits) are sorted, never empty strings, and
      hold exactly the known units of the files that define one of its callers (or
      callees). The function's own unit is not excluded. */
  lemma UnitListMeaning(q2f: map<string, set<string>>, ubf: map<string, string>, names: seq<string>, u: string)
    ensures StrictlySorted(UnitList(q2f, ubf, names))
    ensures "" !in UnitList(q2f, ubf, names)
    ensures u in UnitList(q2f, ubf, names) <==>
      u != "" && exists cn, cf :: cn in names && cf in Lookup(q2f, cn) && UnitOfFile(ubf, cf) == u
  {
    SortSetSorted(NameUnits(q2f, ubf, names, |names|) - {""});
    NameUnitsMember(q2f, ubf, names, |names|, u);
    if exists cn, cf :: cn in names && cf in Lookup(q2f, cn) && UnitOfFile(ubf, cf) == u {
      var cn, cf :| cn in names && cf in Lookup(q2f, cn) && UnitOfFile(ubf, cf) == u;
      var i :| 0 <= i < |names| && names[i] == cn;
    }
  }

  /** interfaces.json has one entry per function and global of the metadata. */
  lemma InterfaceCount(os: Paths.Os, base: string, projectCode: string, q2f: map<string, set<string>>,
                       ubf: map<string, string>, fs: seq<FnIn>, gs: seq<GlobIn>)
    ensures |InterfacesSpec(os, base, projectCode, q2f, ubf, ItemsOf(fs, gs))| == |fs| + |gs|
  {
    var items := ItemsOf(fs, gs);
    OrderedIsPermutation(os, base, items);
    assert |InterfacesSpec(os, base, projectCode, q2f, ubf, items)| == |Ordered(os, base, items)|;
  }

  /** The id of the interface of `id` ends with "_" and the number `idx` gives it. */
  lemma IdEndsWithNumber(os: Paths.Os, base: string, projectCode: string, idx: map<string, nat>, id: string)
    ensures var parts := RSplitOnce(InterfaceId(os, base, projectCode, idx, id), '_');
      |parts| == 2 && parts[1] == Pad2(IndexOf(idx, id)) && DigitsValue(parts[1]) == IndexOf(idx, id)
  {
    var n := IndexOf(idx, id);
    var head := "IF_" + projectCode + "_" + Upper(InterfaceModule(os, base, id)) + "_" + FileCode(os, id);
    assert InterfaceId(os, base, projectCode, idx, id) == head + "_" + Pad2(n);
    NoDigitIn(Pad2(n), '_');
    RSplitOnceJoined(head, '_', Pad2(n));
    Pad2Value(n);
  }

  /** The number that ends an interface id is the entry's 1-based position among the
      line-sorted entries of its file, written with at least two digits. */
  lemma InterfaceIdNumber(os: Paths.Os, base: string, projectCode: string, items: seq<Item>, fp: string, p: nat)
    requires IdsDistinct(items)
    requires fp in Files(os, base, items) && p < |FileGroup(os, base, items, fp)|
    ensures var parts := RSplitOnce(InterfaceId(os, base, projectCode, IndexSpec(os, base, items),
                                                FileGroup(os, base, items, fp)[p].id), '_');
      |parts| == 2 && parts[1] == Pad2(p + 1) && DigitsValue(parts[1]) == p + 1
  {
    IndexNumbersWithinFile(os, base, items, fp, p);
    IdEndsWithNumber(os, base, projectCode, IndexSpec(os, base, items), FileGroup(os, base, items, fp)[p].id);
  }

  // ------------------------------------------------------------------ main

  /** `meta.get("projectName", os.path.basename(base_path)).upper()` */
  function ProjectCode(os: Paths.Os, m: Meta): string {
    Upper(m.projectName.GetOr(Basename(m.basePath, os.seps)))
  }

  /** `functions_list` */
  function FnItems(os: Paths.Os, base: string, fs: seq<FnIn>): (r: seq<FnItem>)
    ensures |r| == |fs| && forall i :: 0 <= i < |fs| ==> r[i] == ToItem(os, base, fs[i])
  {
    seq(|fs|, i requires 0 <= i < |fs| => ToItem(os, base, fs[i]))
  }

  /** What the generator writes: component.json, units.json and, unless a sort key
      raised first, interfaces.json. */
  datatype Outputs = Outputs(components: seq<Component>, units: seq<UnitOut>,
                             interfaces: Option<seq<InterfaceOut>>)

  /** `main()`: exit status 1 without metadata; otherwise one component per module,
      one unit per function file, named after its module and base name, and one
      interface per function and global. */
  method Generate(os: Paths.Os, meta: Option<Meta>) returns (r: Result<Outputs, int>)
    ensures r.Err? <==> meta.None?
    ensures r.Err? ==> r.error == 1
    ensures r.Ok? ==>
      var m := meta.value;
      var fl := FnItems(os, m.basePath, m.functions);
      var files := FilePaths(os, m.basePath, fl);
      |r.value.components| == |ModuleNamesOf(fl)| &&
      (forall i :: 0 <= i < |ModuleNamesOf(fl)| ==> r.value.components[i].name == ModuleNamesOf(fl)[i]) &&
      |r.value.units| == |files| &&
      (forall j :: 0 <= j < |files| ==> r.value.units[j].unitName == UnitNameOf(os, m.basePath, files[j])) &&
      (r.value.interfaces.None? <==> !LinesParse(ItemsOf(m.functions, m.globals))) &&
      (r.value.interfaces.Some? ==> |r.value.interfaces.value| == |m.functions| + |m.globals|)
    ensures r.Ok? ==>
      var m := meta.value;
      var fl := FnItems(os, m.basePath, m.functions);
      var files := FilePaths(os, m.basePath, fl);
      var q2f := QualifiedFiles(os, m.basePath, fl);
      var ubf := UnitsByFile(os, m.basePath, files);
      (forall i :: 0 <= i < |r.value.components| ==>
        r.value.components[i] == ComponentOf(os, m.basePath, q2f, fl, ModuleNamesOf(fl)[i])) &&
      r.value.units == Grouping.Image(files, UnitMaker(os, m.basePath, q2f, ubf, fl)) &&
      (r.value.interfaces.Some? ==>
        r.value.interfaces.value == InterfacesSpec(os, m.basePath, ProjectCode(os, m), q2f, ubf, ItemsOf(m.functions, m.globals)))
  {
    if meta.None? {
      return Err(1);
    }
    var m := meta.value;
    var base := m.basePath;
    var fl := FunctionsList(os, base, m.functions);
    assert fl == FnItems(os, base, m.functions);
    var files := FilePaths(os, base, fl);
    var q2f := QualifiedToFile(os, base, fl);
    var ubf := UnitByFile(os, base, files);
    var comps := Components(os, base, q2f, fl);
    var units := Units(os, base, q2f, ubf, fl, files);
    UnitNames(os, base, q2f, ubf, fl, files, units);
    var ifaces := InterfaceTable(os, base, ProjectCode(os, m), q2f, ubf, m.functions, m.globals);
    if ifaces.Some? {
      InterfaceCount(os, base, ProjectCode(os, m), q2f, ubf, m.functions, m.globals);
    }
    return Ok(Outputs(comps, units, ifaces));
  }

  /** Each unit of the unit loop is named after the module and base name of its file. */
  lemma UnitNames(os: Paths.Os, base: string, q2f: map<string, set<string>>, ubf: map<string, string>,
                  fl: seq<FnItem>, files: seq<string>, units: seq<UnitOut>)
    requires forall f :: f in ubf <==> f in files
    requires forall f :: f in ubf ==> ubf[f] == UnitNameOf(os, base, f)
    requires |units| == |files|
    requires forall j :: 0 <= j < |files| ==> units[j] == UnitOf(os, base, q2f, ubf, fl, files[j])
    ensures forall j :: 0 <= j < |files| ==> units[j].unitName == UnitNameOf(os, base, files[j])
  {
    forall j | 0 <= j < |files| ensures units[j].unitName == UnitNameOf(os, base, files[j]) {
      UnitNaming(os, base, q2f, ubf, fl, files, files[j], "");
    }
  }
}
