/** src/model_deriver.py: the units and modules derived from the parser's
    functions.json and globalVariables.json, the per-file interface numbering, the
    interface ids and the direction clean-up. */
module ModelDeriver {
  import opened Wrappers
  import opened Text
  import opened Ordering
  import Paths

  /** The separator inside unit keys. */
  const KeySep: char := '|'

  /** `make_unit_key` and `path_from_unit_rel` of src/utils.py, which are not part of
      this model. */
  datatype UnitHelpers = UnitHelpers(makeUnitKey: string -> string, pathFromUnitRel: string -> string)

  /** A location as read with `.get("file", "")` and `.get("line", 0)`. */
  datatype Loc = Loc(file: string, line: int)

  /** A parameter record; either key may be missing. */
  datatype RawParam = RawParam(name: Option<string>, typeName: Option<string>)

  /** The fields of a function or global record this stage reads or writes. `None`
      is a missing key; a missing or null id list reads as empty. */
  datatype Rec = Rec(
    location: Option<Loc>,
    calledByIds: seq<string>,
    callsIds: seq<string>,
    parameters: Option<seq<RawParam>>,
    params: Option<seq<RawParam>>,
    direction: Option<string>,
    interfaceId: Option<string>)

  /** A JSON object of records: its keys in insertion order and the records. */
  datatype Dict = Dict(keys: seq<string>, items: map<string, Rec>)

  ghost predicate WellFormed(d: Dict) {
    Distinct(d.keys) && forall k :: k in d.keys <==> k in d.items
  }

  /** `d.get(id)` */
  function Get(d: Dict, id: string): Option<Rec> {
    if id in d.items then Some(d.items[id]) else None
  }

  function FileField(r: Option<Rec>): string {
    match r
    case None => ""
    case Some(x) => match x.location case None => "" case Some(l) => l.file
  }

  function LineField(r: Option<Rec>): int {
    match r
    case None => 0
    case Some(x) => match x.location case None => 0 case Some(l) => l.line
  }

  /** `_file_path(data, base_path)`: the record's file normalised against the base.
      A record without a location, or an id with no record, is normalised from "",
      so it is not necessarily dropped by an emptiness test. */
  function FilePath(os: Paths.Os, r: Option<Rec>, base: string): (s: string)
    ensures FileField(r) == "" ==> s == Paths.NormPath(os, "", base)
    ensures os.isAbs(FileField(r)) ==> s == os.normpath(FileField(r))
  {
    Paths.NormPath(os, FileField(r), base)
  }

  // ------------------------------------------------------------------ files

  /** The non-empty normalised files of the records listed in `ks`. */
  function FilesOf(os: Paths.Os, base: string, d: Dict, ks: seq<string>): set<string> {
    set k | k in ks && FilePath(os, Get(d, k), base) != "" :: FilePath(os, Get(d, k), base)
  }

  function AllFiles(os: Paths.Os, base: string, fd: Dict, gd: Dict): set<string> {
    FilesOf(os, base, fd, fd.keys) + FilesOf(os, base, gd, gd.keys)
  }

  /** One of the two loops that collect `all_files`. */
  method AddFiles(os: Paths.Os, base: string, d: Dict, acc: set<string>) returns (r: set<string>)
    ensures r == acc + FilesOf(os, base, d, d.keys)
    ensures forall fp :: fp in r && fp !in acc ==> fp != ""
  {
    r := acc;
    var i := 0;
    while i < |d.keys|
      invariant 0 <= i <= |d.keys|
      invariant r == acc + FilesOf(os, base, d, d.keys[..i])
    {
      var fp := FilePath(os, Get(d, d.keys[i]), base);
      assert d.keys[..i + 1] == d.keys[..i] + [d.keys[i]];
      if fp != "" {
        r := r + {fp};
      }
      i := i + 1;
    }
    assert d.keys[..i] == d.keys;
  }

  /** `os.path.relpath(fp, base_path)` with backslashes turned into "/", or the file
      itself so treated when no relative path exists. */
  function RelOf(os: Paths.Os, fp: string, base: string): (r: string)
    ensures '\\' !in r
  {
    var rel := match os.relpath(fp, base) case Some(x) => x case None => fp;
    ReplaceCharRemoves(rel, '\\', '/');
    ReplaceChar(rel, '\\', '/')
  }

  function UnitKeyOf(h: UnitHelpers, os: Paths.Os, base: string, fp: string): string {
    h.makeUnitKey(RelOf(os, fp, base))
  }

  /** The loop that fills `unit_by_file`. */
  method UnitByFile(h: UnitHelpers, os: Paths.Os, base: string, files: seq<string>) returns (ubf: map<string, string>)
    ensures forall fp :: fp in ubf <==> fp in files
    ensures forall fp :: fp in ubf ==> ubf[fp] == UnitKeyOf(h, os, base, fp)
  {
    ubf := map[];
    var i := 0;
    while i < |files|
      invariant 0 <= i <= |files|
      invariant forall fp :: fp in ubf <==> fp in files[..i]
      invariant forall fp :: fp in ubf ==> ubf[fp] == UnitKeyOf(h, os, base, fp)
    {
      assert files[..i + 1] == files[..i] + [files[i]];
      ubf := ubf[files[i] := UnitKeyOf(h, os, base, files[i])];
      i := i + 1;
    }
    assert files[..i] == files;
  }

  /** Only C++ translation units become units: the lower-cased base name ends in
      ".cpp", ".cc" or ".cxx". */
  predicate IsUnitSource(os: Paths.Os, fp: string) {
    var b := Lower(Basename(fp, os.seps));
    EndsWith(b, ".cpp") || EndsWith(b, ".cc") || EndsWith(b, ".cxx")
  }

  // ------------------------------------------------------------------ units

  /** The ids among `ks` whose record's file normalises to `fp`, in order. */
  function IdsIn(os: Paths.Os, base: string, d: Dict, ks: seq<string>, fp: string): (r: seq<string>)
    ensures forall x :: x in r <==> x in ks && FilePath(os, Get(d, x), base) == fp
  {
    if ks == [] then []
    else (if FilePath(os, Get(d, ks[0]), base) == fp then [ks[0]] else []) + IdsIn(os, base, d, ks[1..], fp)
  }

  function LineKey(d: Dict): string -> int {
    (x: string) => LineField(Get(d, x))
  }

  /** `sorted([id for id, r in d.items() if _file_path(r) == fp], key=line)` */
  function SortedIds(os: Paths.Os, base: string, d: Dict, fp: string): seq<string> {
    SortByKey(IdsIn(os, base, d, d.keys, fp), LineKey(d))
  }

  /** A unit's id list holds exactly the ids whose file normalises to the unit's
      file, each as often as the object lists it, in ascending line order. */
  lemma SortedIdsExact(os: Paths.Os, base: string, d: Dict, fp: string, x: string)
    ensures SortedByKey(SortedIds(os, base, d, fp), LineKey(d))
    ensures multiset(SortedIds(os, base, d, fp)) == multiset(IdsIn(os, base, d, d.keys, fp))
    ensures x in SortedIds(os, base, d, fp) <==> x in d.keys && FilePath(os, Get(d, x), base) == fp
  {
    var s := SortedIds(os, base, d, fp);
    var ids := IdsIn(os, base, d, d.keys, fp);
    assert x in s <==> x in multiset(s);
    assert x in ids <==> x in multiset(ids);
  }

  function Edges(r: Option<Rec>, callers: bool): seq<string> {
    match r
    case None => []
    case Some(x) => if callers then x.calledByIds else x.callsIds
  }

  /** `unit_by_file.get(_file_path(functions_data.get(cid, {})))`, "" when absent. */
  function UnitOfId(os: Paths.Os, base: string, fd: Dict, ubf: map<string, string>, cid: string): string {
    var cf := FilePath(os, Get(fd, cid), base);
    if cf in ubf then ubf[cf] else ""
  }

  /** The units, other than `key`, of the callers (or callees) of the first `n` ids. */
  function LinkedUnits(os: Paths.Os, base: string, fd: Dict, ubf: map<string, string>, key: string,
                       fids: seq<string>, callers: bool, n: nat): set<string>
    requires n <= |fids|
  {
    set j, c | 0 <= j < n && c in Edges(Get(fd, fids[j]), callers) &&
      UnitOfId(os, base, fd, ubf, c) != "" && UnitOfId(os, base, fd, ubf, c) != key :: UnitOfId(os, base, fd, ubf, c)
  }

  function UnitsOfIds(os: Paths.Os, base: string, fd: Dict, ubf: map<string, string>, key: string, cids: seq<string>): set<string> {
    set c | c in cids && UnitOfId(os, base, fd, ubf, c) != "" && UnitOfId(os, base, fd, ubf, c) != key :: UnitOfId(os, base, fd, ubf, c)
  }

  /** The inner loop over one function's `calledByIds` (or `callsIds`). */
  method CollectUnitsOfIds(os: Paths.Os, base: string, fd: Dict, ubf: map<string, string>, key: string,
                           cids: seq<string>) returns (r: set<string>)
    ensures r == UnitsOfIds(os, base, fd, ubf, key, cids)
  {
    r := {};
    var i := 0;
    while i < |cids|
      invariant 0 <= i <= |cids|
      invariant r == UnitsOfIds(os, base, fd, ubf, key, cids[..i])
    {
      assert cids[..i + 1] == cids[..i] + [cids[i]];
      var u := UnitOfId(os, base, fd, ubf, cids[i]);
      if u != "" && u != key {
        r := r + {u};
      }
      i := i + 1;
    }
    assert cids[..i] == cids;
  }

  lemma LinkedUnitsStep(os: Paths.Os, base: string, fd: Dict, ubf: map<string, string>, key: string,
                        fids: seq<string>, callers: bool, n: nat)
    requires n < |fids|
    ensures LinkedUnits(os, base, fd, ubf, key, fids, callers, n + 1) ==
      LinkedUnits(os, base, fd, ubf, key, fids, callers, n) +
      UnitsOfIds(os, base, fd, ubf, key, Edges(Get(fd, fids[n]), callers))
  {
  }

  /** The loops that collect `caller_units` (or `callee_units`) of one file. */
  method CollectLinkedUnits(os: Paths.Os, base: string, fd: Dict, ubf: map<string, string>, key: string,
                            fids: seq<string>, callers: bool) returns (r: set<string>)
    ensures r == LinkedUnits(os, base, fd, ubf, key, fids, callers, |fids|)
  {
    r := {};
    var i := 0;
    while i < |fids|
      invariant 0 <= i <= |fids|
      invariant r == LinkedUnits(os, base, fd, ubf, key, fids, callers, i)
    {
      var more := CollectUnitsOfIds(os, base, fd, ubf, key, Edges(Get(fd, fids[i]), callers));
      LinkedUnitsStep(os, base, fd, ubf, key, fids, callers, i);
      r := r + more;
      i := i + 1;
    }
  }

  datatype Unit = Unit(
    name: string, path: string, fileName: string,
    functionIds: seq<string>, globalVariableIds: seq<string>,
    callerUnits: seq<string>, calleesUnits: seq<string>)

  /** The entry one accepted file contributes under its unit key. */
  function FileUnit(h: UnitHelpers, os: Paths.Os, base: string, fd: Dict, gd: Dict,
                    ubf: map<string, string>, fp: string): Unit {
    var key := UnitKeyOf(h, os, base, fp);
    var b := Basename(fp, os.seps);
    var fids := SortedIds(os, base, fd, fp);
    Unit(Splitext(b, os.seps).0, h.pathFromUnitRel(RelOf(os, fp, base)), b,
      fids, SortedIds(os, base, gd, fp),
      SortSet(LinkedUnits(os, base, fd, ubf, key, fids, true, |fids|)),
      SortSet(LinkedUnits(os, base, fd, ubf, key, fids, false, |fids|)))
  }

  /** The body of the loop over the sorted files, for an accepted file. */
  method FileUnitOf(h: UnitHelpers, os: Paths.Os, base: string, fd: Dict, gd: Dict,
                    ubf: map<string, string>, fp: string) returns (u: Unit)
    requires fp in ubf && ubf[fp] == UnitKeyOf(h, os, base, fp)
    ensures u == FileUnit(h, os, base, fd, gd, ubf, fp)
  {
    var key := ubf[fp];
    var b := Basename(fp, os.seps);
    var fids := SortedIds(os, base, fd, fp);
    var vids := SortedIds(os, base, gd, fp);
    var callerUnits := CollectLinkedUnits(os, base, fd, ubf, key, fids, true);
    var calleeUnits := CollectLinkedUnits(os, base, fd, ubf, key, fids, false);
    u := Unit(Splitext(b, os.seps).0, h.pathFromUnitRel(RelOf(os, fp, base)), b,
      fids, vids, SortSet(callerUnits), SortSet(calleeUnits));
  }

  /** A second file with the same unit key: id lists are concatenated, caller and
      callee units are united and sorted again; name, path and file name stay. */
  function Merge(u: Unit, v: Unit): Unit {
    u.(functionIds := u.functionIds + v.functionIds,
       globalVariableIds := u.globalVariableIds + v.globalVariableIds,
       callerUnits := SortDedup(u.callerUnits + v.callerUnits),
       calleesUnits := SortDedup(u.calleesUnits + v.calleesUnits))
  }

  /** `units_data`: the unit keys in insertion order and their entries. */
  datatype Units = Units(keys: seq<string>, items: map<string, Unit>)

  function AddUnit(us: Units, key: string, u: Unit): Units {
    if key in us.items then Units(us.keys, us.items[key := Merge(us.items[key], u)])
    else Units(us.keys + [key], us.items[key := u])
  }

  /** The three per-file ingredients of the loop over the sorted files: whether a
      file becomes a unit, its unit key, and the entry it contributes. */
  function Accept(os: Paths.Os): string -> bool {
    fp => IsUnitSource(os, fp)
  }

  function KeyFn(h: UnitHelpers, os: Paths.Os, base: string): string -> string {
    fp => UnitKeyOf(h, os, base, fp)
  }

  function EntryFn(h: UnitHelpers, os: Paths.Os, base: string, fd: Dict, gd: Dict,
                   ubf: map<string, string>): string -> Unit {
    fp => FileUnit(h, os, base, fd, gd, ubf, fp)
  }

  /** What each accepted file among `files` contributes, in file order: its unit key
      and its entry. */
  function Contributions(files: seq<string>, accept: string -> bool, key: string -> string,
                         entry: string -> Unit): (cs: seq<(string, Unit)>)
    ensures |cs| <= |files|
    decreases |files|
  {
    if files == [] then []
    else
      var fp := files[|files| - 1];
      Contributions(files[..|files| - 1], accept, key, entry) +
        (if accept(fp) then [(key(fp), entry(fp))] else [])
  }

  /** `units_data` after the contributions `cs`, each added or merged in turn. */
  function FoldUnits(cs: seq<(string, Unit)>): Units
    decreases |cs|
  {
    if cs == [] then Units([], map[])
    else AddUnit(FoldUnits(cs[..|cs| - 1]), cs[|cs| - 1].0, cs[|cs| - 1].1)
  }

  /** `units_data` as `_build_units_modules` leaves it, for the sorted `files`. */
  function UnitsData(h: UnitHelpers, os: Paths.Os, base: string, fd: Dict, gd: Dict,
                     ubf: map<string, string>, files: seq<string>): Units {
    FoldUnits(Contributions(files, Accept(os), KeyFn(h, os, base), EntryFn(h, os, base, fd, gd, ubf)))
  }

  /** `_build_units_modules`: units from the sorted files, then modules. */
  method BuildUnitsModules(h: UnitHelpers, os: Paths.Os, base: string, fd: Dict, gd: Dict)
    returns (units: Units, modules: seq<ModuleEntry>, ubf: map<string, string>)
    ensures forall fp :: fp in ubf <==> fp in AllFiles(os, base, fd, gd)
    ensures forall fp :: fp in ubf ==> ubf[fp] == UnitKeyOf(h, os, base, fp)
    ensures units == UnitsData(h, os, base, fd, gd, ubf, SortSet(AllFiles(os, base, fd, gd)))
    ensures modules == ModulesOf(units)
  {
    var files := SortedFiles(os, base, fd, gd);
    ubf := UnitByFile(h, os, base, files);
    units := UnitsLoop(h, os, base, fd, gd, ubf, files);
    modules := ModulesOf(units);
  }

  /** `sorted(all_files)`, collected from both objects. */
  method SortedFiles(os: Paths.Os, base: string, fd: Dict, gd: Dict) returns (files: seq<string>)
    ensures files == SortSet(AllFiles(os, base, fd, gd))
  {
    var all := AddFiles(os, base, fd, {});
    all := AddFiles(os, base, gd, all);
    files := SortSet(all);
  }

  /** The loop over the sorted files that creates or merges unit entries. */
  method UnitsLoop(h: UnitHelpers, os: Paths.Os, base: string, fd: Dict, gd: Dict,
                   ubf: map<string, string>, files: seq<string>) returns (units: Units)
    requires forall fp :: fp in files ==> fp in ubf && ubf[fp] == UnitKeyOf(h, os, base, fp)
    ensures units == UnitsData(h, os, base, fd, gd, ubf, files)
  {
    ghost var accept, key, entry := Accept(os), KeyFn(h, os, base), EntryFn(h, os, base, fd, gd, ubf);
    units := Units([], map[]);
    var i := 0;
    while i < |files|
      invariant 0 <= i <= |files|
      invariant units == FoldUnits(Contributions(files[..i], accept, key, entry))
    {
      ghost var before := units;
      units := AddFileUnit(h, os, base, fd, gd, ubf, units, files[i]);
      UnitsStep(files, i, accept, key, entry, before, units);
      i := i + 1;
    }
    assert files[..i] == files;
  }

  /** One iteration of the loop over the sorted files extends the fold by the
      file's contribution. */
  lemma UnitsStep(files: seq<string>, i: nat, accept: string -> bool, key: string -> string,
                  entry: string -> Unit, before: Units, after: Units)
    requires i < |files|
    requires before == FoldUnits(Contributions(files[..i], accept, key, entry))
    requires accept(files[i]) ==> after == AddUnit(before, key(files[i]), entry(files[i]))
    requires !accept(files[i]) ==> after == before
    ensures after == FoldUnits(Contributions(files[..i + 1], accept, key, entry))
  {
    var fp := files[i];
    ContributionsSnoc(files, i, accept, key, entry);
    FoldUnitsSnoc(Contributions(files[..i], accept, key, entry),
                  if accept(fp) then [(key(fp), entry(fp))] else []);
  }

  lemma ContributionsSnoc(files: seq<string>, i: nat, accept: string -> bool, key: string -> string,
                          entry: string -> Unit)
    requires i < |files|
    ensures Contributions(files[..i + 1], accept, key, entry) ==
      Contributions(files[..i], accept, key, entry) +
      (if accept(files[i]) then [(key(files[i]), entry(files[i]))] else [])
  {
    assert files[..i + 1][..i] == files[..i];
  }

  /** One pass of the loop over the sorted files. */
  method AddFileUnit(h: UnitHelpers, os: Paths.Os, base: string, fd: Dict, gd: Dict,
                     ubf: map<string, string>, units: Units, fp: string) returns (r: Units)
    requires fp in ubf && ubf[fp] == UnitKeyOf(h, os, base, fp)
    ensures IsUnitSource(os, fp) ==> r == AddUnit(units, UnitKeyOf(h, os, base, fp), FileUnit(h, os, base, fd, gd, ubf, fp))
    ensures !IsUnitSource(os, fp) ==> r == units
    ensures Accept(os)(fp) ==> r == AddUnit(units, KeyFn(h, os, base)(fp), EntryFn(h, os, base, fd, gd, ubf)(fp))
    ensures !Accept(os)(fp) ==> r == units
  {
    r := units;
    var b := Lower(Basename(fp, os.seps));
    if EndsWith(b, ".cpp") || EndsWith(b, ".cc") || EndsWith(b, ".cxx") {
      var u := FileUnitOf(h, os, base, fd, gd, ubf, fp);
      var key := ubf[fp];
      if key in units.items {
        r := Units(units.keys, units.items[key := Merge(units.items[key], u)]);
      } else {
        r := Units(units.keys + [key], units.items[key := u]);
      }
    }
  }

  lemma FoldUnitsSnoc(cs: seq<(string, Unit)>, extra: seq<(string, Unit)>)
    requires |extra| <= 1
    ensures extra == [] ==> FoldUnits(cs + extra) == FoldUnits(cs)
    ensures extra != [] ==> FoldUnits(cs + extra) == AddUnit(FoldUnits(cs), extra[0].0, extra[0].1)
  {
    if extra == [] {
      assert cs + extra == cs;
    } else {
      assert (cs + extra)[..|cs|] == cs;
    }
  }

  // ------------------------------------------------------- unit properties

  /** A unit never lists itself among its caller or callee units, and both lists are
      sorted and free of duplicates. */
  ghost predicate SelfFree(key: string, u: Unit) {
    StrictlySorted(u.callerUnits) && StrictlySorted(u.calleesUnits) &&
    key !in u.callerUnits && key !in u.calleesUnits
  }

  ghost predicate UnitsWellFormed(us: Units) {
    Distinct(us.keys) && (forall k :: k in us.keys <==> k in us.items) &&
    forall k :: k in us.items ==> SelfFree(k, us.items[k])
  }

  lemma FileUnitSelfFree(h: UnitHelpers, os: Paths.Os, base: string, fd: Dict, gd: Dict,
                         ubf: map<string, string>, fp: string)
    ensures SelfFree(UnitKeyOf(h, os, base, fp), FileUnit(h, os, base, fd, gd, ubf, fp))
  {
    var key := UnitKeyOf(h, os, base, fp);
    var fids := SortedIds(os, base, fd, fp);
    SortSetSorted(LinkedUnits(os, base, fd, ubf, key, fids, true, |fids|));
    SortSetSorted(LinkedUnits(os, base, fd, ubf, key, fids, false, |fids|));
  }

  lemma MergeSelfFree(key: string, u: Unit, v: Unit)
    requires SelfFree(key, u) && SelfFree(key, v)
    ensures SelfFree(key, Merge(u, v))
  {
  }

  lemma AddUnitWellFormed(us: Units, key: string, u: Unit)
    requires UnitsWellFormed(us) && SelfFree(key, u)
    ensures UnitsWellFormed(AddUnit(us, key, u))
  {
    if key in us.items {
      MergeSelfFree(key, us.items[key], u);
    } else {
      var r := AddUnit(us, key, u);
      assert forall i :: 0 <= i < |us.keys| ==> us.keys[i] != key;
      assert forall k :: k in r.keys <==> k in us.keys || k == key;
    }
  }

  lemma {:induction false} ContributionsSelfFree(files: seq<string>, accept: string -> bool,
                                                  key: string -> string, entry: string -> Unit)
    requires forall fp :: SelfFree(key(fp), entry(fp))
    ensures forall i :: 0 <= i < |Contributions(files, accept, key, entry)| ==>
      SelfFree(Contributions(files, accept, key, entry)[i].0, Contributions(files, accept, key, entry)[i].1)
    decreases |files|
  {
    if files != [] {
      ContributionsSelfFree(files[..|files| - 1], accept, key, entry);
    }
  }

  lemma {:induction false} FoldUnitsWellFormed(cs: seq<(string, Unit)>)
    requires forall i :: 0 <= i < |cs| ==> SelfFree(cs[i].0, cs[i].1)
    ensures UnitsWellFormed(FoldUnits(cs))
    decreases |cs|
  {
    if cs != [] {
      FoldUnitsWellFormed(cs[..|cs| - 1]);
      AddUnitWellFormed(FoldUnits(cs[..|cs| - 1]), cs[|cs| - 1].0, cs[|cs| - 1].1);
    }
  }

  /** Every unit key is listed once, and no unit lists itself as a caller or callee
      unit, whatever merges happened. */
  lemma UnitsAreWellFormed(h: UnitHelpers, os: Paths.Os, base: string, fd: Dict, gd: Dict,
                           ubf: map<string, string>, files: seq<string>)
    ensures UnitsWellFormed(UnitsData(h, os, base, fd, gd, ubf, files))
  {
    var key, entry := KeyFn(h, os, base), EntryFn(h, os, base, fd, gd, ubf);
    forall fp ensures SelfFree(key(fp), entry(fp)) {
      FileUnitSelfFree(h, os, base, fd, gd, ubf, fp);
    }
    ContributionsSelfFree(files, Accept(os), key, entry);
    FoldUnitsWellFormed(Contributions(files, Accept(os), key, entry));
  }

  /** Some accepted file among `files` has unit key `k`. */
  ghost predicate HasSourceFor(files: seq<string>, accept: string -> bool, key: string -> string, k: string) {
    exists j :: 0 <= j < |files| && accept(files[j]) && key(files[j]) == k
  }

  ghost predicate HasKey(cs: seq<(string, Unit)>, k: string) {
    exists i :: 0 <= i < |cs| && cs[i].0 == k
  }

  lemma {:induction false} FoldUnitsKeys(cs: seq<(string, Unit)>, k: string)
    ensures k in FoldUnits(cs).items <==> HasKey(cs, k)
    decreases |cs|
  {
    if cs != [] {
      var n := |cs| - 1;
      FoldUnitsKeys(cs[..n], k);
      if HasKey(cs[..n], k) {
        var i :| 0 <= i < n && cs[..n][i].0 == k;
        assert cs[i].0 == k;
      }
      if HasKey(cs, k) && cs[n].0 != k {
        var i :| 0 <= i < |cs| && cs[i].0 == k;
        assert cs[..n][i].0 == k;
      }
    }
  }

  lemma {:induction false} ContributionKeys(files: seq<string>, accept: string -> bool, key: string -> string,
                                             entry: string -> Unit, k: string)
    ensures HasKey(Contributions(files, accept, key, entry), k) <==> HasSourceFor(files, accept, key, k)
    decreases |files|
  {
    if files != [] {
      var n := |files| - 1;
      var prev := Contributions(files[..n], accept, key, entry);
      var cs := Contributions(files, accept, key, entry);
      ContributionKeys(files[..n], accept, key, entry, k);
      if HasKey(prev, k) {
        var i :| 0 <= i < |prev| && prev[i].0 == k;
        assert cs[i] == prev[i];
      }
      if HasKey(cs, k) && !HasKey(prev, k) {
        var i :| 0 <= i < |cs| && cs[i].0 == k;
        assert i >= |prev|;
      }
      if HasSourceFor(files[..n], accept, key, k) {
        var j :| 0 <= j < n && accept(files[..n][j]) && key(files[..n][j]) == k;
        assert files[j] == files[..n][j];
      }
      if HasSourceFor(files, accept, key, k) && !(accept(files[n]) && key(files[n]) == k) {
        var j :| 0 <= j < |files| && accept(files[j]) && key(files[j]) == k;
        assert j < n && files[..n][j] == files[j];
      }
      if accept(files[n]) && key(files[n]) == k {
        assert cs[|cs| - 1].0 == k;
      }
    }
  }

  /** Units are created only for accepted files: the unit keys are exactly the keys
      of the files whose base name ends in .cpp, .cc or .cxx. */
  lemma UnitKeysFromSources(h: UnitHelpers, os: Paths.Os, base: string, fd: Dict, gd: Dict,
                            ubf: map<string, string>, files: seq<string>, k: string)
    ensures k in UnitsData(h, os, base, fd, gd, ubf, files).items <==>
      exists j :: 0 <= j < |files| && IsUnitSource(os, files[j]) && UnitKeyOf(h, os, base, files[j]) == k
  {
    var accept, key, entry := Accept(os), KeyFn(h, os, base), EntryFn(h, os, base, fd, gd, ubf);
    FoldUnitsKeys(Contributions(files, accept, key, entry), k);
    ContributionKeys(files, accept, key, entry, k);
  }

  /** The concatenated function (or, with `globals`, global) id lists of the
      contributions with key `k`, in order. */
  function IdsForKey(cs: seq<(string, Unit)>, k: string, globals: bool): seq<string>
    decreases |cs|
  {
    if cs == [] then []
    else
      var c := cs[|cs| - 1];
      IdsForKey(cs[..|cs| - 1], k, globals) +
        (if c.0 == k then (if globals then c.1.globalVariableIds else c.1.functionIds) else [])
  }

  lemma {:induction false} IdsForKeyNone(cs: seq<(string, Unit)>, k: string, globals: bool)
    requires !HasKey(cs, k)
    ensures IdsForKey(cs, k, globals) == []
    decreases |cs|
  {
    if cs != [] {
      var n := |cs| - 1;
      forall i | 0 <= i < n ensures cs[..n][i].0 != k {
        assert cs[..n][i] == cs[i];
      }
      IdsForKeyNone(cs[..n], k, globals);
    }
  }

  /** Merging concatenates: a unit's id lists are the id lists of all its files, one
      after the other in file order. */
  lemma {:induction false} FoldUnitsIds(cs: seq<(string, Unit)>, k: string)
    requires k in FoldUnits(cs).items
    ensures FoldUnits(cs).items[k].functionIds == IdsForKey(cs, k, false)
    ensures FoldUnits(cs).items[k].globalVariableIds == IdsForKey(cs, k, true)
    decreases |cs|
  {
    var n := |cs| - 1;
    var prev := FoldUnits(cs[..n]);
    if k in prev.items {
      FoldUnitsIds(cs[..n], k);
    } else {
      FoldUnitsKeys(cs[..n], k);
      IdsForKeyNone(cs[..n], k, false);
      IdsForKeyNone(cs[..n], k, true);
    }
  }

  /** `x` is in the function id list of one of the accepted files with key `k`. */
  ghost predicate InSomeEntry(files: seq<string>, accept: string -> bool, key: string -> string,
                              entry: string -> Unit, k: string, x: string) {
    exists j :: 0 <= j < |files| && accept(files[j]) && key(files[j]) == k && x in entry(files[j]).functionIds
  }

  lemma IdsForKeyStep(files: seq<string>, accept: string -> bool, key: string -> string,
                      entry: string -> Unit, k: string)
    requires files != []
    ensures IdsForKey(Contributions(files, accept, key, entry), k, false) ==
      IdsForKey(Contributions(files[..|files| - 1], accept, key, entry), k, false) +
      (if accept(files[|files| - 1]) && key(files[|files| - 1]) == k then entry(files[|files| - 1]).functionIds else [])
  {
    var n := |files| - 1;
    var prev := Contributions(files[..n], accept, key, entry);
    var cs := Contributions(files, accept, key, entry);
    if accept(files[n]) {
      assert cs[..|cs| - 1] == prev;
    } else {
      assert cs == prev;
    }
  }

  lemma InSomeEntryStep(files: seq<string>, accept: string -> bool, key: string -> string,
                        entry: string -> Unit, k: string, x: string)
    requires files != []
    ensures InSomeEntry(files, accept, key, entry, k, x) <==>
      InSomeEntry(files[..|files| - 1], accept, key, entry, k, x) ||
      (accept(files[|files| - 1]) && key(files[|files| - 1]) == k && x in entry(files[|files| - 1]).functionIds)
  {
    var n := |files| - 1;
    if InSomeEntry(files, accept, key, entry, k, x) {
      var j :| 0 <= j < |files| && accept(files[j]) && key(files[j]) == k && x in entry(files[j]).functionIds;
      if j < n {
        assert files[..n][j] == files[j];
      }
    }
    if InSomeEntry(files[..n], accept, key, entry, k, x) {
      var j :| 0 <= j < n && accept(files[..n][j]) && key(files[..n][j]) == k && x in entry(files[..n][j]).functionIds;
      assert files[j] == files[..n][j];
    }
  }

  lemma {:induction false} IdsForKeyMembers(files: seq<string>, accept: string -> bool, key: string -> string,
                                             entry: string -> Unit, k: string, x: string)
    ensures x in IdsForKey(Contributions(files, accept, key, entry), k, false) <==>
      InSomeEntry(files, accept, key, entry, k, x)
    decreases |files|
  {
    if files != [] {
      IdsForKeyMembers(files[..|files| - 1], accept, key, entry, k, x);
      IdsForKeyStep(files, accept, key, entry, k);
      InSomeEntryStep(files, accept, key, entry, k, x);
    }
  }

  /** A function id is listed under unit `k` exactly when its record normalises to
      one of the accepted files whose unit key is `k`. */
  lemma UnitFunctionIds(h: UnitHelpers, os: Paths.Os, base: string, fd: Dict, gd: Dict,
                        ubf: map<string, string>, files: seq<string>, k: string, x: string)
    requires k in UnitsData(h, os, base, fd, gd, ubf, files).items
    ensures x in UnitsData(h, os, base, fd, gd, ubf, files).items[k].functionIds <==>
      x in fd.keys &&
      exists j :: 0 <= j < |files| && IsUnitSource(os, files[j]) && UnitKeyOf(h, os, base, files[j]) == k &&
        FilePath(os, Get(fd, x), base) == files[j]
  {
    var accept, key, entry := Accept(os), KeyFn(h, os, base), EntryFn(h, os, base, fd, gd, ubf);
    var cs := Contributions(files, accept, key, entry);
    FoldUnitsIds(cs, k);
    IdsForKeyMembers(files, accept, key, entry, k, x);
    forall j | 0 <= j < |files|
      ensures x in entry(files[j]).functionIds <==> x in fd.keys && FilePath(os, Get(fd, x), base) == files[j]
    {
      SortedIdsExact(os, base, fd, files[j], x);
    }
  }

  // ---------------------------------------------------------------- modules

  function FirstSegment(u: string): string {
    Split(u, KeySep)[0]
  }

  /** The units among `ks` whose first KEY_SEP segment is `m`, in order. */
  function UnitsWithPrefix(ks: seq<string>, m: string): (r: seq<string>)
    ensures forall u :: u in r <==> u in ks && FirstSegment(u) == m
  {
    if ks == [] then []
    else (if FirstSegment(ks[0]) == m then [ks[0]] else []) + UnitsWithPrefix(ks[1..], m)
  }

  datatype ModuleEntry = ModuleEntry(name: string, units: seq<string>)

  function ModuleNames(us: Units): seq<string> {
    SortSet(set u | u in us.keys && KeySep in u :: FirstSegment(u))
  }

  /** `modules_data`, in sorted module order. */
  function ModulesOf(us: Units): (r: seq<ModuleEntry>)
    ensures |r| == |ModuleNames(us)|
  {
    var names := ModuleNames(us);
    seq(|names|, i requires 0 <= i < |names| => ModuleEntry(names[i], UnitsWithPrefix(us.keys, names[i])))
  }

  /** Modules are the distinct first segments of the unit keys that hold a KEY_SEP,
      sorted, and each lists exactly the units whose first segment is its name. */
  lemma ModulesExact(us: Units, i: nat, m: string, u: string)
    requires i < |ModulesOf(us)|
    ensures StrictlySorted(ModuleNames(us))
    ensures m in ModuleNames(us) <==> exists v :: v in us.keys && KeySep in v && FirstSegment(v) == m
    ensures ModulesOf(us)[i].name == ModuleNames(us)[i]
    ensures u in ModulesOf(us)[i].units <==> u in us.keys && FirstSegment(u) == ModulesOf(us)[i].name
  {
    SortSetSorted(set u | u in us.keys && KeySep in u :: FirstSegment(u));
  }

  // ------------------------------------------------------- interface index

  /** What the index reads of one of `all_entries`: its id, its record's normalised
      file and its line. */
  datatype Entry = Entry(id: string, file: string, line: int)

  function EntryOf(os: Paths.Os, base: string, d: Dict, k: string): (e: Entry)
    ensures e.id == k
  {
    Entry(k, FilePath(os, Get(d, k), base), LineField(Get(d, k)))
  }

  function EntryLine(): Entry -> int {
    (e: Entry) => e.line
  }

  predicate IdsDistinct(es: seq<Entry>) {
    forall i, j :: 0 <= i < j < |es| ==> es[i].id != es[j].id
  }

  /** `all_entries`: the functions, then the globals, each in insertion order. */
  method AllEntries(os: Paths.Os, base: string, fd: Dict, gd: Dict) returns (es: seq<Entry>)
    ensures |es| == |fd.keys| + |gd.keys|
    ensures forall i :: 0 <= i < |fd.keys| ==> es[i] == EntryOf(os, base, fd, fd.keys[i])
    ensures forall i :: 0 <= i < |gd.keys| ==> es[|fd.keys| + i] == EntryOf(os, base, gd, gd.keys[i])
  {
    es := [];
    var i := 0;
    while i < |fd.keys|
      invariant 0 <= i <= |fd.keys| && |es| == i
      invariant forall j :: 0 <= j < i ==> es[j] == EntryOf(os, base, fd, fd.keys[j])
    {
      es := es + [EntryOf(os, base, fd, fd.keys[i])];
      i := i + 1;
    }
    i := 0;
    while i < |gd.keys|
      invariant 0 <= i <= |gd.keys| && |es| == |fd.keys| + i
      invariant forall j :: 0 <= j < |fd.keys| ==> es[j] == EntryOf(os, base, fd, fd.keys[j])
      invariant forall j :: 0 <= j < i ==> es[|fd.keys| + j] == EntryOf(os, base, gd, gd.keys[j])
    {
      es := es + [EntryOf(os, base, gd, gd.keys[i])];
      i := i + 1;
    }
  }

  /** Ids taken from the two objects are distinct when no id is repeated in
      `fd.keys + gd.keys`. */
  lemma AllEntriesDistinct(fd: Dict, gd: Dict, es: seq<Entry>)
    requires Distinct(fd.keys + gd.keys)
    requires |es| == |fd.keys| + |gd.keys|
    requires forall i :: 0 <= i < |fd.keys| ==> es[i].id == fd.keys[i]
    requires forall i :: 0 <= i < |gd.keys| ==> es[|fd.keys| + i].id == gd.keys[i]
    ensures IdsDistinct(es)
  {
    var ks := fd.keys + gd.keys;
    forall i | 0 <= i < |es| ensures es[i].id == ks[i] {
      if i >= |fd.keys| {
        assert es[|fd.keys| + (i - |fd.keys|)].id == gd.keys[i - |fd.keys|];
      }
    }
  }

  /** `by_file[fp]`: the entries whose normalised file is `fp`, in entry order. */
  function InFile(es: seq<Entry>, fp: string): seq<Entry>
    decreases |es|
  {
    if es == [] then []
    else
      var e := es[|es| - 1];
      InFile(es[..|es| - 1], fp) + (if e.file == fp then [e] else [])
  }

  /** A file's group holds exactly the entries whose record normalises to it. */
  lemma {:induction false} InFileMembers(es: seq<Entry>, fp: string, e: Entry)
    ensures e in InFile(es, fp) <==> e in es && e.file == fp
    decreases |es|
  {
    if es != [] {
      var n := |es| - 1;
      InFileMembers(es[..n], fp, e);
      assert es == es[..n] + [es[n]];
    }
  }

  /** The keys of `by_file`: the non-empty normalised files of the entries. */
  function EntryFiles(es: seq<Entry>): set<string> {
    set e | e in es && e.file != "" :: e.file
  }

  lemma InFileSnoc(es: seq<Entry>, i: nat)
    requires i < |es|
    ensures forall fp :: (InFile(es[..i + 1], fp) ==
      InFile(es[..i], fp) + (if es[i].file == fp then [es[i]] else []))
    ensures EntryFiles(es[..i + 1]) ==
      EntryFiles(es[..i]) + (if es[i].file != "" then {es[i].file} else {})
  {
    assert es[..i + 1][..i] == es[..i];
    assert es[..i + 1] == es[..i] + [es[i]];
  }

  lemma InFileNone(es: seq<Entry>, fp: string)
    requires fp != "" && fp !in EntryFiles(es)
    ensures InFile(es, fp) == []
  {
    if InFile(es, fp) != [] {
      var x := InFile(es, fp)[0];
      InFileMembers(es, fp, x);
    }
  }

  /** The loop that fills `by_file` with `setdefault(fp, []).append(...)`. */
  method GroupByFile(es: seq<Entry>) returns (byFile: map<string, seq<Entry>>)
    ensures byFile.Keys == EntryFiles(es)
    ensures forall fp :: fp in byFile ==> byFile[fp] == InFile(es, fp)
  {
    byFile := map[];
    var i := 0;
    while i < |es|
      invariant 0 <= i <= |es|
      invariant byFile.Keys == EntryFiles(es[..i])
      invariant forall fp :: fp in byFile ==> byFile[fp] == InFile(es[..i], fp)
    {
      var e := es[i];
      var fp := e.file;
      InFileSnoc(es, i);
      if fp != "" {
        if fp in byFile {
          byFile := byFile[fp := byFile[fp] + [e]];
        } else {
          InFileNone(es[..i], fp);
          byFile := byFile[fp := [e]];
        }
      }
      i := i + 1;
    }
    assert es[..i] == es;
  }

  /** `sorted(by_file[fp], key=line)`: the entries of one file in ascending line
      order. */
  function FileGroup(es: seq<Entry>, fp: string): seq<Entry> {
    SortByKey(InFile(es, fp), EntryLine())
  }

  /** `enumerate(group, 1)` written into `m`: each entry's id gets its 1-based
      position, a later position of the same id overwriting an earlier one. */
  function NumberGroup(m: map<string, nat>, g: seq<Entry>): map<string, nat>
    decreases |g|
  {
    if g == [] then m
    else NumberGroup(m, g[..|g| - 1])[g[|g| - 1].id := |g|]
  }

  /** The sorted group of every file of the entries. */
  function SortedGroups(es: seq<Entry>): map<string, seq<Entry>> {
    map fp | fp in EntryFiles(es) :: FileGroup(es, fp)
  }

  function GroupOf(groups: map<string, seq<Entry>>, fp: string): seq<Entry> {
    if fp in groups then groups[fp] else []
  }

  /** The groups of `files`, numbered one file after the other from an empty map. */
  function IndexOver(groups: map<string, seq<Entry>>, files: seq<string>): map<string, nat>
    decreases |files|
  {
    if files == [] then map[]
    else NumberGroup(IndexOver(groups, files[..|files| - 1]), GroupOf(groups, files[|files| - 1]))
  }

  /** `_build_interface_index` over the entries: the files in sorted order. */
  function IndexSpec(es: seq<Entry>): map<string, nat> {
    IndexOver(SortedGroups(es), SortSet(EntryFiles(es)))
  }

  /** The inner loop: `for idx, (_, iid, _) in enumerate(group, 1)`. */
  method NumberInto(m: map<string, nat>, g: seq<Entry>) returns (r: map<string, nat>)
    ensures r == NumberGroup(m, g)
  {
    r := m;
    var i := 0;
    while i < |g|
      invariant 0 <= i <= |g|
      invariant r == NumberGroup(m, g[..i])
    {
      assert g[..i + 1][..i] == g[..i];
      r := r[g[i].id := i + 1];
      i := i + 1;
    }
    assert g[..i] == g;
  }

  /** `_build_interface_index` */
  method BuildInterfaceIndex(os: Paths.Os, base: string, fd: Dict, gd: Dict)
    returns (es: seq<Entry>, idx: map<string, nat>)
    ensures |es| == |fd.keys| + |gd.keys|
    ensures forall i :: 0 <= i < |fd.keys| ==> es[i] == EntryOf(os, base, fd, fd.keys[i])
    ensures forall i :: 0 <= i < |gd.keys| ==> es[|fd.keys| + i] == EntryOf(os, base, gd, gd.keys[i])
    ensures idx == IndexSpec(es)
  {
    es := AllEntries(os, base, fd, gd);
    var byFile := GroupByFile(es);
    var files := SortSet(byFile.Keys);
    idx := NumberFiles(es, byFile, files);
  }

  /** The outer loop over `sorted(by_file)`. */
  method NumberFiles(es: seq<Entry>, byFile: map<string, seq<Entry>>,
                     files: seq<string>) returns (idx: map<string, nat>)
    requires forall fp :: fp in files ==> fp in EntryFiles(es) && fp in byFile && byFile[fp] == InFile(es, fp)
    ensures idx == IndexOver(SortedGroups(es), files)
  {
    idx := map[];
    var i := 0;
    while i < |files|
      invariant 0 <= i <= |files|
      invariant idx == IndexOver(SortedGroups(es), files[..i])
    {
      assert files[..i + 1][..i] == files[..i];
      assert GroupOf(SortedGroups(es), files[i]) == SortByKey(byFile[files[i]], EntryLine());
      idx := NumberInto(idx, SortByKey(byFile[files[i]], EntryLine()));
      i := i + 1;
    }
    assert files[..i] == files;
  }

  // --------------------------------------------------- index properties

  ghost predicate IdIn(g: seq<Entry>, x: string) {
    exists j :: 0 <= j < |g| && g[j].id == x
  }

  lemma IdInSnoc(g: seq<Entry>, x: string)
    requires g != []
    ensures IdIn(g, x) <==> IdIn(g[..|g| - 1], x) || g[|g| - 1].id == x
  {
    var n := |g| - 1;
    if IdIn(g, x) && g[n].id != x {
      var j :| 0 <= j < |g| && g[j].id == x;
      assert g[..n][j].id == x;
    }
    if IdIn(g[..n], x) {
      var j :| 0 <= j < n && g[..n][j].id == x;
      assert g[j].id == x;
    }
  }

  /** Numbering a group adds its ids and keeps the others. */
  lemma {:induction false} NumberGroupKeys(m: map<string, nat>, g: seq<Entry>, x: string)
    ensures x in NumberGroup(m, g) <==> x in m || IdIn(g, x)
    ensures !IdIn(g, x) && x in m ==> NumberGroup(m, g)[x] == m[x]
    decreases |g|
  {
    if g != [] {
      NumberGroupKeys(m, g[..|g| - 1], x);
      IdInSnoc(g, x);
    }
  }

  /** Numbering a group gives each of its ids the position of its last occurrence. */
  lemma {:induction false} NumberGroupPosition(m: map<string, nat>, g: seq<Entry>, x: string)
    requires IdIn(g, x)
    ensures x in NumberGroup(m, g)
    ensures var p := NumberGroup(m, g)[x];
      1 <= p <= |g| && g[p - 1].id == x && forall j :: p <= j < |g| ==> g[j].id != x
    decreases |g|
  {
    var n := |g| - 1;
    IdInSnoc(g, x);
    if g[n].id != x {
      NumberGroupPosition(m, g[..n], x);
    }
  }

  /** The group of some file among `files` holds `x`. */
  ghost predicate InSomeFile(groups: map<string, seq<Entry>>, files: seq<string>, x: string) {
    exists i :: 0 <= i < |files| && IdIn(GroupOf(groups, files[i]), x)
  }

  lemma InSomeFileSnoc(groups: map<string, seq<Entry>>, files: seq<string>, x: string)
    requires files != []
    ensures InSomeFile(groups, files, x) <==>
      InSomeFile(groups, files[..|files| - 1], x) || IdIn(GroupOf(groups, files[|files| - 1]), x)
  {
    var n := |files| - 1;
    if InSomeFile(groups, files, x) && !IdIn(GroupOf(groups, files[n]), x) {
      var i :| 0 <= i < |files| && IdIn(GroupOf(groups, files[i]), x);
      assert files[..n][i] == files[i];
    }
    if InSomeFile(groups, files[..n], x) {
      var i :| 0 <= i < n && IdIn(GroupOf(groups, files[..n][i]), x);
      assert files[i] == files[..n][i];
    }
  }

  /** Exactly the ids of the groups of `files` are numbered. */
  lemma {:induction false} IndexOverKeys(groups: map<string, seq<Entry>>, files: seq<string>, x: string)
    ensures x in IndexOver(groups, files) <==> InSomeFile(groups, files, x)
    decreases |files|
  {
    if files != [] {
      var n := |files| - 1;
      IndexOverKeys(groups, files[..n], x);
      NumberGroupKeys(IndexOver(groups, files[..n]), GroupOf(groups, files[n]), x);
      InSomeFileSnoc(groups, files, x);
    }
  }

  /** Every numbered id sits, at its number, in the group of one of `files`. */
  lemma {:induction false} IndexOverPosition(groups: map<string, seq<Entry>>, files: seq<string>, x: string) returns (i: nat)
    requires x in IndexOver(groups, files)
    ensures i < |files|
    ensures 1 <= IndexOver(groups, files)[x] <= |GroupOf(groups, files[i])|
    ensures GroupOf(groups, files[i])[IndexOver(groups, files)[x] - 1].id == x
    decreases |files|
  {
    var n := |files| - 1;
    var prev := IndexOver(groups, files[..n]);
    NumberGroupKeys(prev, GroupOf(groups, files[n]), x);
    if IdIn(GroupOf(groups, files[n]), x) {
      NumberGroupPosition(prev, GroupOf(groups, files[n]), x);
      i := n;
    } else {
      i := IndexOverPosition(groups, files[..n], x);
      assert files[..n][i] == files[i];
    }
  }

  /** No id occurs twice within a group. */
  predicate GroupIdsDistinct(g: seq<Entry>) {
    forall k1, k2 :: 0 <= k1 < k2 < |g| ==> g[k1].id != g[k2].id
  }

  /** No id occurs twice among the groups of `files`: each group's ids are distinct,
      and none of them occurs in the group of an earlier file. */
  ghost predicate UniqueIds(groups: map<string, seq<Entry>>, files: seq<string>)
    decreases |files|
  {
    files == [] ||
    (var n := |files| - 1;
     UniqueIds(groups, files[..n]) && GroupIdsDistinct(GroupOf(groups, files[n])) &&
     forall x :: IdIn(GroupOf(groups, files[n]), x) ==> !InSomeFile(groups, files[..n], x))
  }

  /** With unique ids, the entry at 0-based position `j` of a file's group is
      numbered `j + 1`. */
  lemma {:induction false} IndexOverExact(groups: map<string, seq<Entry>>, files: seq<string>, i: nat, j: nat)
    requires UniqueIds(groups, files)
    requires i < |files| && j < |GroupOf(groups, files[i])|
    ensures GroupOf(groups, files[i])[j].id in IndexOver(groups, files)
    ensures IndexOver(groups, files)[GroupOf(groups, files[i])[j].id] == j + 1
    decreases |files|
  {
    var n := |files| - 1;
    var x := GroupOf(groups, files[i])[j].id;
    var last := GroupOf(groups, files[n]);
    var prev := IndexOver(groups, files[..n]);
    if i == n {
      assert IdIn(last, x);
      NumberGroupPosition(prev, last, x);
    } else {
      assert files[..n][i] == files[i];
      assert IdIn(GroupOf(groups, files[..n][i]), x);
      assert InSomeFile(groups, files[..n], x);
      assert !IdIn(last, x);
      IndexOverExact(groups, files[..n], i, j);
      NumberGroupKeys(prev, last, x);
    }
  }

  /** The ids numbered over `files` are those of entries whose file is one of them. */
  lemma IndexOverDomain(es: seq<Entry>, files: seq<string>, x: string)
    requires forall fp :: fp in files <==> fp in EntryFiles(es)
    ensures x in IndexOver(SortedGroups(es), files) <==> exists e :: e in es && e.id == x && e.file != ""
  {
    var g := SortedGroups(es);
    IndexOverKeys(g, files, x);
    if InSomeFile(g, files, x) {
      var i :| 0 <= i < |files| && IdIn(GroupOf(g, files[i]), x);
      var j :| 0 <= j < |GroupOf(g, files[i])| && GroupOf(g, files[i])[j].id == x;
      SortedGroupMember(es, g, files[i], GroupOf(g, files[i])[j]);
    }
    if exists e :: e in es && e.id == x && e.file != "" {
      var e :| e in es && e.id == x && e.file != "";
      assert e.file in EntryFiles(es);
      var i :| 0 <= i < |files| && files[i] == e.file;
      SortedGroupMember(es, g, e.file, e);
      var j :| 0 <= j < |GroupOf(g, e.file)| && GroupOf(g, e.file)[j] == e;
      assert IdIn(GroupOf(g, files[i]), x);
    }
  }

  /** Exactly the ids of entries with a non-empty normalised file are numbered. */
  lemma IndexDomain(es: seq<Entry>, x: string)
    ensures x in IndexSpec(es) <==> exists e :: e in es && e.id == x && e.file != ""
  {
    IndexOverDomain(es, SortSet(EntryFiles(es)), x);
  }

  /** An entry is in a file's sorted group exactly when its record normalises to
      that file. */
  lemma GroupMember(es: seq<Entry>, fp: string, e: Entry)
    ensures e in FileGroup(es, fp) <==> e in es && e.file == fp
  {
    InFileMembers(es, fp, e);
    assert e in FileGroup(es, fp) <==> e in multiset(FileGroup(es, fp));
    assert e in InFile(es, fp) <==> e in multiset(InFile(es, fp));
  }

  lemma SortedGroupMember(es: seq<Entry>, g: map<string, seq<Entry>>, fp: string, e: Entry)
    requires g == SortedGroups(es)
    requires fp in EntryFiles(es)
    ensures e in GroupOf(g, fp) <==> e in es && e.file == fp
  {
    GroupMember(es, fp, e);
  }

  /** Every number is in 1..n, where n is the size of the sorted group of some file,
      and at that position the group holds the id (`groups` and `files` name the
      sorted groups and the sorted file list `IndexSpec` numbers over). */
  lemma IndexInRange(es: seq<Entry>, groups: map<string, seq<Entry>>, files: seq<string>, x: string)
    returns (fp: string)
    requires groups == SortedGroups(es) && files == SortSet(EntryFiles(es))
    requires x in IndexOver(groups, files)
    ensures fp in EntryFiles(es) && fp in groups
    ensures 1 <= IndexOver(groups, files)[x] <= |groups[fp]|
    ensures groups[fp][IndexOver(groups, files)[x] - 1].id == x
  {
    var i := IndexOverPosition(groups, files, x);
    fp := files[i];
  }

  /** The sorted group of a file holds that file's entries, ordered by line. */
  lemma SortedGroupContents(es: seq<Entry>, groups: map<string, seq<Entry>>, fp: string)
    requires groups == SortedGroups(es) && fp in EntryFiles(es)
    ensures fp in groups
    ensures SortedByKey(groups[fp], EntryLine())
    ensures multiset(groups[fp]) == multiset(InFile(es, fp))
    ensures forall e :: e in groups[fp] <==> e in es && e.file == fp
  {
    forall e | true
      ensures e in groups[fp] <==> e in es && e.file == fp
    {
      GroupMember(es, fp, e);
    }
  }

  /** An entry occurs at most once in entries whose ids are distinct. */
  lemma CountAtMostOne(es: seq<Entry>, e: Entry)
    requires IdsDistinct(es)
    ensures multiset(es)[e] <= 1
  {
    if e in es {
      var a :| 0 <= a < |es| && es[a] == e;
      assert es == es[..a] + [e] + es[a + 1..];
      assert e !in es[..a] by {
        forall k | 0 <= k < a ensures es[..a][k] != e { assert es[..a][k] == es[k]; }
      }
      var rest := es[a + 1..];
      forall k | 0 <= k < |rest| ensures rest[k] != e { assert rest[k] == es[a + 1 + k]; }
    }
  }

  lemma {:induction false} InFileCount(es: seq<Entry>, fp: string, e: Entry)
    ensures multiset(InFile(es, fp))[e] <= multiset(es)[e]
    decreases |es|
  {
    if es != [] {
      var n := |es| - 1;
      InFileCount(es[..n], fp, e);
      assert es == es[..n] + [es[n]];
    }
  }

  /** An entry at two positions of a sequence occurs in it at least twice. */
  lemma RepeatCount(g: seq<Entry>, k1: nat, k2: nat)
    requires k1 < k2 < |g| && g[k1] == g[k2]
    ensures multiset(g)[g[k1]] >= 2
  {
    assert g == g[..k2] + g[k2..];
    assert g[..k2][k1] == g[k1];
    assert g[k2..][0] == g[k2];
  }

  /** When the ids of the entries are distinct, so are those within each sorted group. */
  lemma SortedGroupIdsDistinct(es: seq<Entry>, groups: map<string, seq<Entry>>, fp: string)
    requires groups == SortedGroups(es) && fp in EntryFiles(es) && IdsDistinct(es)
    ensures GroupIdsDistinct(GroupOf(groups, fp))
  {
    SortedGroupContents(es, groups, fp);
    var g := groups[fp];
    forall k1, k2 | 0 <= k1 < k2 < |g| ensures g[k1].id != g[k2].id {
      if g[k1].id == g[k2].id {
        assert g[k1] in g && g[k2] in g;
        var a :| 0 <= a < |es| && es[a] == g[k1];
        var b :| 0 <= b < |es| && es[b] == g[k2];
        assert a == b;
        RepeatCount(g, k1, k2);
        InFileCount(es, fp, g[k1]);
        CountAtMostOne(es, g[k1]);
        assert false;
      }
    }
  }

  /** Groups drawn from entries with distinct ids, one group per distinct file, have
      unique ids. */
  lemma {:induction false} UniqueIdsOver(es: seq<Entry>, groups: map<string, seq<Entry>>, files: seq<string>)
    requires IdsDistinct(es) && Distinct(files)
    requires forall f :: f in files ==> GroupIdsDistinct(GroupOf(groups, f))
    requires forall f, e :: f in files && e in GroupOf(groups, f) ==> e in es && e.file == f
    ensures UniqueIds(groups, files)
    decreases |files|
  {
    if files != [] {
      var n := |files| - 1;
      forall k1, k2 | 0 <= k1 < k2 < n ensures files[..n][k1] != files[..n][k2] {
        assert files[..n][k1] == files[k1] && files[..n][k2] == files[k2];
      }
      UniqueIdsOver(es, groups, files[..n]);
      var last := GroupOf(groups, files[n]);
      forall x | IdIn(last, x) ensures !InSomeFile(groups, files[..n], x) {
        if InSomeFile(groups, files[..n], x) {
          assert false;
        }
      }
    }
  }

  /** `_build_interface_index`, exactly: when no id is repeated, the entry at 0-based
      position `j` of a file's line-sorted group gets number `j + 1`, so each file's
      entries are numbered 1..n in line order. */
  lemma IndexExact(es: seq<Entry>, groups: map<string, seq<Entry>>, files: seq<string>, fp: string, j: nat)
    requires groups == SortedGroups(es) && files == SortSet(EntryFiles(es))
    requires IdsDistinct(es) && fp in EntryFiles(es) && j < |groups[fp]|
    ensures groups[fp][j].id in IndexOver(groups, files)
    ensures IndexOver(groups, files)[groups[fp][j].id] == j + 1
  {
    SortSetSorted(EntryFiles(es));
    forall k1, k2 | 0 <= k1 < k2 < |files| ensures files[k1] != files[k2] {
      LexIrreflexive(files[k1]);
    }
    forall f | f in files ensures GroupIdsDistinct(GroupOf(groups, f)) {
      SortedGroupIdsDistinct(es, groups, f);
    }
    forall f, e | f in files && e in GroupOf(groups, f) ensures e in es && e.file == f {
      SortedGroupContents(es, groups, f);
    }
    UniqueIdsOver(es, groups, files);
    var i :| 0 <= i < |files| && files[i] == fp;
    IndexOverExact(groups, files, i, j);
  }

  // ----------------------------------------------------------- enrichment

  /** The file a record's location names, "" when it has none. */
  function LocFile(r: Rec): string {
    match r.location case None => "" case Some(l) => l.file
  }

  /** The path used for an interface id: "" for no file; else the normalised file
      relative to the base with "/" separators, or the raw file when no relative
      path exists (that fallback is not separator-converted). */
  function InterfaceRel(os: Paths.Os, fp: string, base: string): (r: string)
    ensures fp == "" ==> r == ""
    ensures os.relpath(Paths.NormPath(os, fp, base), base).Some? && fp != "" ==> '\\' !in r
  {
    if fp == "" then ""
    else
      match os.relpath(Paths.NormPath(os, fp, base), base)
      case None => fp
      case Some(rel) =>
        ReplaceCharRemoves(rel, '\\', '/');
        ReplaceChar(rel, '\\', '/')
  }

  /** `unit.replace("/", "_").upper()`, `unit` being the relative path without its
      extension. */
  function UnitCode(os: Paths.Os, fp: string, base: string): (r: string)
    ensures '/' !in r
    ensures forall i :: 0 <= i < |r| ==> !('a' <= r[i] <= 'z')
    ensures fp == "" ==> r == ""
  {
    var rel := InterfaceRel(os, fp, base);
    var u := if rel == "" then "" else Splitext(rel, os.seps).0;
    var code := Upper(ReplaceChar(u, '/', '_'));
    assert forall i :: 0 <= i < |code| ==> code[i] != '/';
    code
  }

  /** `f"IF_{proj_code}_{unit_code}_{idx:02d}"` */
  function InterfaceId(project: string, unitCode: string, n: nat): string {
    "IF_" + Upper(project) + "_" + unitCode + "_" + Pad2(n)
  }

  /** An interface id starts with "IF_", the upper-cased project and "_". */
  lemma InterfaceIdPrefix(project: string, unitCode: string, n: nat)
    ensures StartsWith(InterfaceId(project, unitCode, n), "IF_" + Upper(project) + "_")
  {
    var prefix := "IF_" + Upper(project) + "_";
    assert InterfaceId(project, unitCode, n) == prefix + (unitCode + "_" + Pad2(n));
  }

  /** The text after the last "_" of an interface id is the index written with at
      least two digits, which reads back as the index; the text before it is the
      prefix and the unit code. */
  lemma InterfaceIdIndex(project: string, unitCode: string, n: nat)
    ensures RSplitOnce(InterfaceId(project, unitCode, n), '_') == ["IF_" + Upper(project) + "_" + unitCode, Pad2(n)]
    ensures |Pad2(n)| >= 2 && DigitsValue(Pad2(n)) == n
  {
    NoDigitIn(Pad2(n), '_');
    RSplitOnceJoined("IF_" + Upper(project) + "_" + unitCode, '_', Pad2(n));
    Pad2Value(n);
  }

  /** `idx_by_id.get(iid, 0)` */
  function IndexOf(idx: map<string, nat>, iid: string): nat {
    if iid in idx then idx[iid] else 0
  }

  /** The interface id of a function or global record. */
  function RecordId(os: Paths.Os, base: string, project: string, idx: map<string, nat>, iid: string, r: Rec): string {
    InterfaceId(project, UnitCode(os, LocFile(r), base), IndexOf(idx, iid))
  }

  /** `{"name": p.get("name", ""), "type": p.get("type", "")}` */
  function NormalizeParam(p: RawParam): (q: RawParam)
    ensures q.name.Some? && q.typeName.Some?
    ensures p.name.Some? ==> q.name == p.name
    ensures p.typeName.Some? ==> q.typeName == p.typeName
    ensures p.name.None? ==> q.name == Some("")
    ensures p.typeName.None? ==> q.typeName == Some("")
  {
    RawParam(Some(p.name.GetOr("")), Some(p.typeName.GetOr("")))
  }

  function NormalizeParams(ps: seq<RawParam>): (qs: seq<RawParam>)
    ensures |qs| == |ps|
    ensures forall i :: 0 <= i < |ps| ==> qs[i] == NormalizeParam(ps[i])
  {
    seq(|ps|, i requires 0 <= i < |ps| => NormalizeParam(ps[i]))
  }

  /** Normalising parameters a second time changes nothing. */
  lemma NormalizeParamsIdempotent(ps: seq<RawParam>)
    ensures NormalizeParams(NormalizeParams(ps)) == NormalizeParams(ps)
  {
    var qs := NormalizeParams(ps);
    forall i | 0 <= i < |qs| ensures NormalizeParam(qs[i]) == qs[i] { }
  }

  /** `f.get("parameters", f.get("params", []))` */
  function RawParams(r: Rec): seq<RawParam> {
    match r.parameters
    case Some(ps) => ps
    case None => r.params.GetOr([])
  }

  /** One function record after `_enrich_interfaces`. */
  function EnrichFunction(os: Paths.Os, base: string, project: string, idx: map<string, nat>, fid: string, r: Rec): (e: Rec)
    ensures e.interfaceId == Some(RecordId(os, base, project, idx, fid, r))
    ensures e.parameters == Some(NormalizeParams(RawParams(r)))
    ensures e.location == r.location && e.params == r.params && e.direction == r.direction
    ensures e.calledByIds == r.calledByIds && e.callsIds == r.callsIds
  {
    r.(interfaceId := Some(RecordId(os, base, project, idx, fid, r)),
       parameters := Some(NormalizeParams(RawParams(r))))
  }

  /** One global record after `_enrich_interfaces`. */
  function EnrichGlobal(os: Paths.Os, base: string, project: string, idx: map<string, nat>, vid: string, r: Rec): (e: Rec)
    ensures e.interfaceId == Some(RecordId(os, base, project, idx, vid, r))
    ensures e == r.(interfaceId := e.interfaceId)
  {
    r.(interfaceId := Some(RecordId(os, base, project, idx, vid, r)))
  }

  /** A loop `for k, v in d.items(): <update v in place>`, the update being `step`. */
  method UpdateEach(d: Dict, step: (string, Rec) -> Rec) returns (r: Dict)
    requires WellFormed(d)
    ensures r.keys == d.keys && r.items.Keys == d.items.Keys
    ensures forall k :: k in d.items ==> r.items[k] == step(k, d.items[k])
  {
    r := d;
    var i := 0;
    while i < |d.keys|
      invariant 0 <= i <= |d.keys|
      invariant r.keys == d.keys && r.items.Keys == d.items.Keys
      invariant forall k :: k in d.items ==>
        r.items[k] == (if k in d.keys[..i] then step(k, d.items[k]) else d.items[k])
    {
      var k := d.keys[i];
      assert k !in d.keys[..i] by {
        forall j | 0 <= j < i ensures d.keys[..i][j] != k { assert d.keys[..i][j] == d.keys[j]; }
      }
      assert d.keys[..i + 1] == d.keys[..i] + [k];
      r := r.(items := r.items[k := step(k, r.items[k])]);
      i := i + 1;
    }
    assert d.keys[..i] == d.keys;
  }

  /** `_enrich_interfaces`: every function gets its interface id and normalised
      parameters, every global its interface id. */
  method EnrichInterfaces(os: Paths.Os, base: string, project: string, fd: Dict, gd: Dict, idx: map<string, nat>)
    returns (fd': Dict, gd': Dict)
    requires WellFormed(fd) && WellFormed(gd)
    ensures fd'.keys == fd.keys && fd'.items.Keys == fd.items.Keys
    ensures forall k :: k in fd.items ==> fd'.items[k] == EnrichFunction(os, base, project, idx, k, fd.items[k])
    ensures gd'.keys == gd.keys && gd'.items.Keys == gd.items.Keys
    ensures forall k :: k in gd.items ==> gd'.items[k] == EnrichGlobal(os, base, project, idx, k, gd.items[k])
  {
    fd' := UpdateEach(fd, (k, r) => EnrichFunction(os, base, project, idx, k, r));
    gd' := UpdateEach(gd, (k, r) => EnrichGlobal(os, base, project, idx, k, r));
  }

  // -------------------------------------------------------------- direction

  /** A function's direction is "Out" when its stripped direction is "Out", else "In". */
  function FunctionDirection(r: Rec): (e: Rec)
    ensures e.direction == Some("Out") <==> Strip(r.direction.GetOr("")) == "Out"
    ensures e.direction == Some("Out") || e.direction == Some("In")
    ensures e == r.(direction := e.direction)
  {
    r.(direction := Some(if Strip(r.direction.GetOr("")) == "Out" then "Out" else "In"))
  }

  /** Every global's direction is "In/Out". */
  function GlobalDirection(r: Rec): (e: Rec)
    ensures e.direction == Some("In/Out")
    ensures e == r.(direction := e.direction)
  {
    r.(direction := Some("In/Out"))
  }

  /** `f.pop("params", None)` */
  function DropParams(r: Rec): (e: Rec)
    ensures e.params.None?
    ensures e == r.(params := None)
  {
    r.(params := None)
  }

  /** Normalising a normalised direction changes nothing. */
  lemma FunctionDirectionIdempotent(r: Rec)
    ensures FunctionDirection(FunctionDirection(r)) == FunctionDirection(r)
  {
    var d := FunctionDirection(r).direction.value;
    if d == "Out" {
      StripUnpadded(d);
    } else {
      StripUnpadded(d);
      assert d == "In";
    }
  }

  lemma GlobalDirectionIdempotent(r: Rec)
    ensures GlobalDirection(GlobalDirection(r)) == GlobalDirection(r)
  {
  }

  /** The clean-up in `main`: directions are normalised and `params` is dropped. */
  method NormalizeDirections(fd: Dict, gd: Dict) returns (fd': Dict, gd': Dict)
    requires WellFormed(fd) && WellFormed(gd)
    ensures fd'.keys == fd.keys && fd'.items.Keys == fd.items.Keys
    ensures forall k :: k in fd.items ==> fd'.items[k] == DropParams(FunctionDirection(fd.items[k]))
    ensures gd'.keys == gd.keys && gd'.items.Keys == gd.items.Keys
    ensures forall k :: k in gd.items ==> gd'.items[k] == GlobalDirection(gd.items[k])
  {
    var fd1 := UpdateEach(fd, (k, r) => FunctionDirection(r));
    gd' := UpdateEach(gd, (k, r) => GlobalDirection(r));
    fd' := UpdateEach(fd1, (k, r) => DropParams(r));
  }

  // --------------------------------------------------------------- pipeline

  /** `main` without the file I/O and the description enrichment: units and modules,
      the interface index, the interface ids and parameters, then the direction
      clean-up. */
  method Derive(h: UnitHelpers, os: Paths.Os, base: string, project: string, fd: Dict, gd: Dict)
    returns (units: Units, modules: seq<ModuleEntry>, ubf: map<string, string>,
             es: seq<Entry>, idx: map<string, nat>, fdOut: Dict, gdOut: Dict)
    requires WellFormed(fd) && WellFormed(gd)
    ensures forall fp :: fp in ubf <==> fp in AllFiles(os, base, fd, gd)
    ensures units == UnitsData(h, os, base, fd, gd, ubf, SortSet(AllFiles(os, base, fd, gd)))
    ensures modules == ModulesOf(units)
    ensures |es| == |fd.keys| + |gd.keys|
    ensures forall i :: 0 <= i < |fd.keys| ==> es[i] == EntryOf(os, base, fd, fd.keys[i])
    ensures forall i :: 0 <= i < |gd.keys| ==> es[|fd.keys| + i] == EntryOf(os, base, gd, gd.keys[i])
    ensures idx == IndexSpec(es)
    ensures fdOut.keys == fd.keys && fdOut.items.Keys == fd.items.Keys
    ensures forall k :: k in fd.items ==>
      fdOut.items[k] == DropParams(FunctionDirection(EnrichFunction(os, base, project, idx, k, fd.items[k])))
    ensures gdOut.keys == gd.keys && gdOut.items.Keys == gd.items.Keys
    ensures forall k :: k in gd.items ==>
      gdOut.items[k] == GlobalDirection(EnrichGlobal(os, base, project, idx, k, gd.items[k]))
  {
    units, modules, ubf := BuildUnitsModules(h, os, base, fd, gd);
    es, idx := BuildInterfaceIndex(os, base, fd, gd);
    var fd1, gd1 := EnrichInterfaces(os, base, project, fd, gd, idx);
    fdOut, gdOut := NormalizeDirections(fd1, gd1);
  }

  /** The two digits at the end of an interface id are the entry's 1-based position
      in its file's line-sorted group, when no id is repeated. */
  lemma IdSuffixIsPosition(project: string, unitCode: string, es: seq<Entry>,
                           groups: map<string, seq<Entry>>, files: seq<string>, fp: string, j: nat)
    requires groups == SortedGroups(es) && files == SortSet(EntryFiles(es))
    requires IdsDistinct(es) && fp in EntryFiles(es) && j < |groups[fp]|
    ensures var id := InterfaceId(project, unitCode, IndexOf(IndexOver(groups, files), groups[fp][j].id));
      var parts := RSplitOnce(id, '_');
      |parts| == 2 && AllDigits(parts[1]) && DigitsValue(parts[1]) == j + 1
  {
    IndexExact(es, groups, files, fp, j);
    var n := IndexOf(IndexOver(groups, files), groups[fp][j].id);
    InterfaceIdIndex(project, unitCode, n);
  }
}
