/** src/generator.py: from metadata.json to the component diagram, the unit
    designs and the interface table. The file name of a function is the text of its
    id before the last ":", normalised against the base; units are named
    "<module>/<basename>". */
module Generator {
  import opened Wrappers
  import opened Text
  import opened Ordering
  import Grouping
  import Paths

  // ------------------------------------------------------------------ input

  /** A parameter record; either key may be missing. */
  datatype ParamIn = ParamIn(name: Option<string>, typeName: Option<string>)

  /** One record of metadata.json's "functions" list. A missing "qualifiedName" or
      "module" is None; a missing list reads as empty. */
  datatype FnIn = FnIn(
    id: string, name: string, qualifiedName: Option<string>, file: string, line: int,
    moduleField: Option<string>, params: seq<ParamIn>, callers: seq<string>, callees: seq<string>)

  /** One record of its "globalVariables" list. */
  datatype GlobIn = GlobIn(id: string, name: string)

  datatype Meta = Meta(basePath: string, projectName: Option<string>, functions: seq<FnIn>, globals: seq<GlobIn>)

  // --------------------------------------------------------- functions_list

  /** An entry of `functions_list`. */
  datatype FnItem = FnItem(
    functionName: string, qualifiedName: string, functionId: string, moduleName: string,
    callers: seq<string>, callees: seq<string>)

  function ToItem(os: Paths.Os, base: string, f: FnIn): FnItem {
    FnItem(f.name, f.qualifiedName.GetOr(f.name), Paths.NormPath(os, f.file, base) + ":" + IntToString(f.line),
      f.moduleField.GetOr(""), f.callers, f.callees)
  }

  /** The loop that builds `functions_list`. */
  method FunctionsList(os: Paths.Os, base: string, fs: seq<FnIn>) returns (fl: seq<FnItem>)
    ensures |fl| == |fs|
    ensures forall i :: 0 <= i < |fs| ==> fl[i] == ToItem(os, base, fs[i])
  {
    fl := [];
    var i := 0;
    while i < |fs|
      invariant 0 <= i <= |fs| && |fl| == i
      invariant forall j :: 0 <= j < i ==> fl[j] == ToItem(os, base, fs[j])
    {
      fl := fl + [ToItem(os, base, fs[i])];
      i := i + 1;
    }
  }

  /** `norm_path(f["functionId"].rsplit(":", 1)[0], base_path)` */
  function FileOf(os: Paths.Os, base: string, fi: FnItem): string {
    Paths.NormPath(os, RSplitOnce(fi.functionId, ':')[0], base)
  }

  /** The text before the last ":" of a function id is the normalised file of its
      record, since the line part has no ":". */
  lemma FunctionIdFile(os: Paths.Os, base: string, f: FnIn)
    ensures RSplitOnce(ToItem(os, base, f).functionId, ':')[0] == Paths.NormPath(os, f.file, base)
    ensures FileOf(os, base, ToItem(os, base, f)) == Paths.NormPath(os, Paths.NormPath(os, f.file, base), base)
  {
    var digits := if f.line < 0 then NatToString(-f.line) else NatToString(f.line);
    NoDigitIn(digits, ':');
    RSplitOnceJoined(Paths.NormPath(os, f.file, base), ':', IntToString(f.line));
  }

  /** `sorted(set(...))` of the function files. */
  function FilePaths(os: Paths.Os, base: string, fl: seq<FnItem>): (r: seq<string>)
    ensures StrictlySorted(r)
    ensures forall fp :: fp in r <==> exists fi :: fi in fl && FileOf(os, base, fi) == fp
  {
    SortSetSorted(set fi | fi in fl :: FileOf(os, base, fi));
    SortSet(set fi | fi in fl :: FileOf(os, base, fi))
  }

  // ------------------------------------------------------ qualified_to_file

  /** The files of the first `n` functions whose qualified name is `q`. */
  function FilesNamed(os: Paths.Os, base: string, fl: seq<FnItem>, n: nat, q: string): set<string>
    requires n <= |fl|
  {
    set j | 0 <= j < n && fl[j].qualifiedName == q :: FileOf(os, base, fl[j])
  }

  /** `qualified_to_file.get(q, [])` */
  function Lookup(m: map<string, set<string>>, q: string): set<string> {
    if q in m then m[q] else {}
  }

  /** `qualified_to_file` once filled: each qualified name with the files of the
      functions so named. */
  function QualifiedFiles(os: Paths.Os, base: string, fl: seq<FnItem>): map<string, set<string>> {
    map q | q in QualifiedNames(fl) :: FilesNamed(os, base, fl, |fl|, q)
  }

  /** The loop that fills `qualified_to_file`. */
  method QualifiedToFile(os: Paths.Os, base: string, fl: seq<FnItem>) returns (q2f: map<string, set<string>>)
    ensures forall q :: Lookup(q2f, q) == FilesNamed(os, base, fl, |fl|, q)
    ensures q2f == QualifiedFiles(os, base, fl)
  {
    q2f := map[];
    var i := 0;
    while i < |fl|
      invariant 0 <= i <= |fl|
      invariant Filled(os, base, fl, i, q2f)
    {
      var fi := fl[i];
      FillStep(os, base, fl, i, q2f);
      q2f := q2f[fi.qualifiedName := Lookup(q2f, fi.qualifiedName) + {FileOf(os, base, fi)}];
      i := i + 1;
    }
    QualifiedFilesOf(os, base, fl, q2f);
  }

  /** `m` is `qualified_to_file` after the first `n` functions. */
  ghost predicate Filled(os: Paths.Os, base: string, fl: seq<FnItem>, n: nat, m: map<string, set<string>>)
    requires n <= |fl|
  {
    KeysNamed(fl, n, m) && forall q :: Lookup(m, q) == FilesNamed(os, base, fl, n, q)
  }

  /** One turn of the loop keeps `Filled`. */
  lemma FillStep(os: Paths.Os, base: string, fl: seq<FnItem>, i: nat, prev: map<string, set<string>>)
    requires i < |fl| && Filled(os, base, fl, i, prev)
    ensures Filled(os, base, fl, i + 1,
      prev[fl[i].qualifiedName := Lookup(prev, fl[i].qualifiedName) + {FileOf(os, base, fl[i])}])
  {
    var next := prev[fl[i].qualifiedName := Lookup(prev, fl[i].qualifiedName) + {FileOf(os, base, fl[i])}];
    assert forall q :: (Lookup(next, q) ==
      Lookup(prev, q) + (if q == fl[i].qualifiedName then {FileOf(os, base, fl[i])} else {}));
    FilesNamedStep(os, base, fl, i);
    KeysNamedStep(fl, i, prev, next);
  }

  /** The keys of `m` are the qualified names of the first `n` functions. */
  ghost predicate KeysNamed(fl: seq<FnItem>, n: nat, m: map<string, set<string>>)
    requires n <= |fl|
  {
    forall q :: q in m <==> exists j :: 0 <= j < n && fl[j].qualifiedName == q
  }

  /** Adding the name of function `i` extends the keys by one function. */
  lemma KeysNamedStep(fl: seq<FnItem>, i: nat, prev: map<string, set<string>>, next: map<string, set<string>>)
    requires i < |fl| && KeysNamed(fl, i, prev)
    requires next.Keys == prev.Keys + {fl[i].qualifiedName}
    ensures KeysNamed(fl, i + 1, next)
  {
    forall q | q in next ensures exists j :: 0 <= j < i + 1 && fl[j].qualifiedName == q {
      if q != fl[i].qualifiedName {
        var j :| 0 <= j < i && fl[j].qualifiedName == q;
        assert 0 <= j < i + 1 && fl[j].qualifiedName == q;
      }
    }
  }

  /** A map with the keys and the lookups of a filled `qualified_to_file` is
      `QualifiedFiles`. */
  lemma QualifiedFilesOf(os: Paths.Os, base: string, fl: seq<FnItem>, q2f: map<string, set<string>>)
    requires KeysNamed(fl, |fl|, q2f)
    requires forall q :: Lookup(q2f, q) == FilesNamed(os, base, fl, |fl|, q)
    ensures q2f == QualifiedFiles(os, base, fl)
  {
    QualifiedFilesKeys(fl, q2f);
    forall q | q in q2f ensures q2f[q] == QualifiedFiles(os, base, fl)[q] {
      assert Lookup(q2f, q) == FilesNamed(os, base, fl, |fl|, q);
    }
  }

  /** A map keyed by exactly the names some function carries has the keys of
      `QualifiedFiles`. */
  lemma QualifiedFilesKeys(fl: seq<FnItem>, q2f: map<string, set<string>>)
    requires forall q :: q in q2f <==> exists j :: 0 <= j < |fl| && fl[j].qualifiedName == q
    ensures q2f.Keys == QualifiedNames(fl)
  {
    forall q | q in QualifiedNames(fl) ensures q in q2f {
      var fi :| fi in fl && fi.qualifiedName == q;
      var j :| 0 <= j < |fl| && fl[j] == fi;
    }
  }

  lemma FilesNamedStep(os: Paths.Os, base: string, fl: seq<FnItem>, i: nat)
    requires i < |fl|
    ensures forall q :: (FilesNamed(os, base, fl, i + 1, q) ==
      FilesNamed(os, base, fl, i, q) + (if q == fl[i].qualifiedName then {FileOf(os, base, fl[i])} else {}))
  {
    forall q ensures FilesNamed(os, base, fl, i + 1, q) ==
      FilesNamed(os, base, fl, i, q) + (if q == fl[i].qualifiedName then {FileOf(os, base, fl[i])} else {})
    {
      if q == fl[i].qualifiedName {
        assert FileOf(os, base, fl[i]) in FilesNamed(os, base, fl, i + 1, q);
      }
    }
  }

  /** Every file `qualified_to_file` lists is the file of some function. */
  lemma FilesNamedAreFiles(os: Paths.Os, base: string, fl: seq<FnItem>, q: string, cf: string)
    requires cf in FilesNamed(os, base, fl, |fl|, q)
    ensures cf in FilePaths(os, base, fl)
  {
    var j :| 0 <= j < |fl| && fl[j].qualifiedName == q && FileOf(os, base, fl[j]) == cf;
    assert fl[j] in fl;
  }

  // ---------------------------------------------------------- unit_by_file

  /** `os.path.relpath(fp, base_path)`, or the path itself where that fails. */
  function RelOrSelf(os: Paths.Os, fp: string, base: string): string {
    match os.relpath(fp, base)
    case Some(rel) => rel
    case None => fp
  }

  /** `get_module_name(rel.replace("\\", "/"), base_path)` for the file `fp`. */
  function ModuleOfFile(os: Paths.Os, base: string, fp: string): (r: string)
    ensures r != "" && '/' !in r
  {
    Paths.GetModuleName(os, ReplaceChar(RelOrSelf(os, fp, base), '\\', '/'), base)
  }

  /** `f"{unit_module}/{os.path.basename(fp)}"` */
  function UnitNameOf(os: Paths.Os, base: string, fp: string): string {
    ModuleOfFile(os, base, fp) + "/" + Basename(fp, os.seps)
  }

  /** A unit name is never empty, and the text before its first "/" (the unit's
      moduleName) is the module of its file. */
  lemma UnitNameModule(os: Paths.Os, base: string, fp: string)
    ensures UnitNameOf(os, base, fp) != ""
    ensures Split(UnitNameOf(os, base, fp), '/')[0] == ModuleOfFile(os, base, fp)
  {
    var m := ModuleOfFile(os, base, fp);
    SplitAfterFree(m, '/', Basename(fp, os.seps));
  }

  /** `unit_by_file` once filled: every file with its unit name. */
  function UnitsByFile(os: Paths.Os, base: string, files: seq<string>): map<string, string> {
    map fp | fp in files :: UnitNameOf(os, base, fp)
  }

  /** The loop that fills `unit_by_file`. */
  method UnitByFile(os: Paths.Os, base: string, files: seq<string>) returns (ubf: map<string, string>)
    ensures forall fp :: fp in ubf <==> fp in files
    ensures forall fp :: fp in ubf ==> ubf[fp] == UnitNameOf(os, base, fp)
    ensures ubf == UnitsByFile(os, base, files)
  {
    ubf := map[];
    var i := 0;
    while i < |files|
      invariant 0 <= i <= |files|
      invariant forall fp :: fp in ubf <==> fp in files[..i]
      invariant forall fp :: fp in ubf ==> ubf[fp] == UnitNameOf(os, base, fp)
    {
      assert files[..i + 1] == files[..i] + [files[i]];
      ubf := ubf[files[i] := UnitNameOf(os, base, files[i])];
      i := i + 1;
    }
    assert files[..i] == files;
  }

  // ------------------------------------------------------------- components

  /** `module_to_funcs[mod]`: the functions of a module, in list order. */
  function ModuleFuncs(fl: seq<FnItem>, mod: string): (r: seq<FnItem>)
    ensures forall fi {:trigger fi in r} :: fi in r <==> fi in fl && fi.moduleName == mod
    decreases |fl|
  {
    if fl == [] then []
    else ModuleFuncs(fl[..|fl| - 1], mod) + (if fl[|fl| - 1].moduleName == mod then [fl[|fl| - 1]] else [])
  }

  lemma {:induction false} ModuleFuncsNone(fl: seq<FnItem>, mod: string)
    requires forall fi :: fi in fl ==> fi.moduleName != mod
    ensures ModuleFuncs(fl, mod) == []
    decreases |fl|
  {
    if fl != [] {
      ModuleFuncsNone(fl[..|fl| - 1], mod);
    }
  }

  function ModuleNamesOf(fl: seq<FnItem>): seq<string> {
    SortSet(set fi | fi in fl :: fi.moduleName)
  }

  function Names(fi: FnItem, callers: bool): seq<string> {
    if callers then fi.callers else fi.callees
  }

  /** The modules other than `mod` of the files in `files`. */
  function ModsOfFiles(os: Paths.Os, base: string, files: set<string>, mod: string): set<string> {
    set cf | cf in files && ModuleOfFile(os, base, cf) != mod :: ModuleOfFile(os, base, cf)
  }

  /** The modules other than `mod` of the files of the first `n` names. */
  function ModsOfNames(os: Paths.Os, base: string, q2f: map<string, set<string>>, names: seq<string>, n: nat, mod: string): set<string>
    requires n <= |names|
  {
    if n == 0 then {} else ModsOfNames(os, base, q2f, names, n - 1, mod) + ModsOfFiles(os, base, Lookup(q2f, names[n - 1]), mod)
  }

  /** The modules other than `mod` that the callers (or callees) of the first `n`
      functions of `fs` are defined in. */
  function LinkedModules(os: Paths.Os, base: string, q2f: map<string, set<string>>, fs: seq<FnItem>, n: nat,
                         mod: string, callers: bool): set<string>
    requires n <= |fs|
  {
    if n == 0 then {}
    else
      (LinkedModules(os, base, q2f, fs, n - 1, mod, callers) +
       ModsOfNames(os, base, q2f, Names(fs[n - 1], callers), |Names(fs[n - 1], callers)|, mod))
  }

  /** Some file that `qualified_to_file` lists for the name `c` lies in module `x`. */
  predicate NameLinks(os: Paths.Os, base: string, q2f: map<string, set<string>>, c: string, x: string) {
    exists cf :: cf in Lookup(q2f, c) && ModuleOfFile(os, base, cf) == x
  }

  lemma {:induction false} ModsOfNamesMember(os: Paths.Os, base: string, q2f: map<string, set<string>>,
                                             names: seq<string>, n: nat, mod: string, x: string)
    requires n <= |names|
    ensures x in ModsOfNames(os, base, q2f, names, n, mod) <==>
      x != mod && exists k :: 0 <= k < n && NameLinks(os, base, q2f, names[k], x)
  {
    if n > 0 {
      ModsOfNamesMember(os, base, q2f, names, n - 1, mod, x);
      ModsOfFilesLinks(os, base, q2f, names[n - 1], mod, x);
      ExistsSnoc(names, n, c => NameLinks(os, base, q2f, c, x));
    }
  }

  /** The modules of one name's files are those it links to, other than `mod`. */
  lemma ModsOfFilesLinks(os: Paths.Os, base: string, q2f: map<string, set<string>>, c: string, mod: string, x: string)
    ensures x in ModsOfFiles(os, base, Lookup(q2f, c), mod) <==> x != mod && NameLinks(os, base, q2f, c, x)
  {
    if x != mod && NameLinks(os, base, q2f, c, x) {
      var cf :| cf in Lookup(q2f, c) && ModuleOfFile(os, base, cf) == x;
    }
  }

  /** Some caller (or callee) name of `fi` links to module `x`. */
  predicate FnLinks(os: Paths.Os, base: string, q2f: map<string, set<string>>, fi: FnItem, callers: bool, x: string) {
    exists k :: 0 <= k < |Names(fi, callers)| && NameLinks(os, base, q2f, Names(fi, callers)[k], x)
  }

  /** The modules `LinkedModules` collects are exactly those other than `mod` that
      hold a definition of some caller (or callee) name of some function in `fs`. */
  lemma {:induction false} LinkedModulesMember(os: Paths.Os, base: string, q2f: map<string, set<string>>,
                                               fs: seq<FnItem>, n: nat, mod: string, callers: bool, x: string)
    requires n <= |fs|
    ensures x in LinkedModules(os, base, q2f, fs, n, mod, callers) <==>
      x != mod && exists i :: 0 <= i < n && FnLinks(os, base, q2f, fs[i], callers, x)
  {
    if n > 0 {
      LinkedModulesMember(os, base, q2f, fs, n - 1, mod, callers, x);
      var names := Names(fs[n - 1], callers);
      ModsOfNamesMember(os, base, q2f, names, |names|, mod, x);
      ExistsSnoc(fs, n, fi => FnLinks(os, base, q2f, fi, callers, x));
    }
  }

  /** An index below `n` is an index below `n - 1` or `n - 1` itself. */
  lemma ExistsSnoc<T>(fs: seq<T>, n: nat, p: T -> bool)
    requires 0 < n <= |fs|
    ensures (exists i :: 0 <= i < n && p(fs[i])) <==> (exists i :: 0 <= i < n - 1 && p(fs[i])) || p(fs[n - 1])
  {
    if exists i :: 0 <= i < n && p(fs[i]) {
      var i :| 0 <= i < n && p(fs[i]);
      if i < n - 1 {
        assert 0 <= i < n - 1 && p(fs[i]);
      }
    }
  }

  /** With `qualified_to_file` as its loop leaves it, a name links to module `x`
      exactly when some function of that qualified name has its file in `x`. */
  lemma NameLinksDefined(os: Paths.Os, base: string, fl: seq<FnItem>, q2f: map<string, set<string>>, c: string, x: string)
    requires forall q :: Lookup(q2f, q) == FilesNamed(os, base, fl, |fl|, q)
    ensures NameLinks(os, base, q2f, c, x) <==>
      exists j :: 0 <= j < |fl| && fl[j].qualifiedName == c && ModuleOfFile(os, base, FileOf(os, base, fl[j])) == x
  {
    if NameLinks(os, base, q2f, c, x) {
      var cf :| cf in Lookup(q2f, c) && ModuleOfFile(os, base, cf) == x;
      var j :| 0 <= j < |fl| && fl[j].qualifiedName == c && FileOf(os, base, fl[j]) == cf;
    }
    if exists j :: 0 <= j < |fl| && fl[j].qualifiedName == c && ModuleOfFile(os, base, FileOf(os, base, fl[j])) == x {
      var j :| 0 <= j < |fl| && fl[j].qualifiedName == c && ModuleOfFile(os, base, FileOf(os, base, fl[j])) == x;
      assert FileOf(os, base, fl[j]) in Lookup(q2f, c);
    }
  }

  /** The innermost loop: `for cf in qualified_to_file.get(c, [])`. */
  method AddModsOfFiles(os: Paths.Os, base: string, files: set<string>, mod: string, acc: set<string>)
    returns (r: set<string>)
    ensures r == acc + ModsOfFiles(os, base, files, mod)
  {
    r := acc;
    var rest := files;
    while rest != {}
      invariant rest <= files
      invariant r == acc + ModsOfFiles(os, base, files - rest, mod)
      decreases |rest|
    {
      var cf :| cf in rest;
      assert files - (rest - {cf}) == (files - rest) + {cf};
      rest := rest - {cf};
      var um := ModuleOfFile(os, base, cf);
      if um != mod {
        r := r + {um};
      }
    }
    assert files - rest == files;
  }

  /** `for c in f["callersFunctionNames"]` (or the callees). */
  method AddModsOfNames(os: Paths.Os, base: string, q2f: map<string, set<string>>, names: seq<string>, mod: string,
                        acc: set<string>) returns (r: set<string>)
    ensures r == acc + ModsOfNames(os, base, q2f, names, |names|, mod)
  {
    r := acc;
    var i := 0;
    while i < |names|
      invariant 0 <= i <= |names|
      invariant r == acc + ModsOfNames(os, base, q2f, names, i, mod)
    {
      r := AddModsOfFiles(os, base, Lookup(q2f, names[i]), mod, r);
      i := i + 1;
    }
  }

  /** `for f in module_to_funcs[mod]`, collecting the caller (or callee) modules. */
  method CollectLinkSet(os: Paths.Os, base: string, q2f: map<string, set<string>>, fs: seq<FnItem>, mod: string,
                        callers: bool) returns (links: set<string>)
    ensures links == LinkedModules(os, base, q2f, fs, |fs|, mod, callers)
  {
    links := {};
    var i := 0;
    while i < |fs|
      invariant 0 <= i <= |fs|
      invariant links == LinkedModules(os, base, q2f, fs, i, mod, callers)
    {
      var names := if callers then fs[i].callers else fs[i].callees;
      assert names == Names(fs[i], callers);
      links := AddModsOfNames(os, base, q2f, names, mod, links);
      i := i + 1;
    }
  }

  /** The caller and callee modules of one module. */
  method LinkSets(os: Paths.Os, base: string, q2f: map<string, set<string>>, fs: seq<FnItem>, mod: string)
    returns (callerSet: set<string>, calleeSet: set<string>)
    ensures callerSet == LinkedModules(os, base, q2f, fs, |fs|, mod, true)
    ensures calleeSet == LinkedModules(os, base, q2f, fs, |fs|, mod, false)
  {
    callerSet := CollectLinkSet(os, base, q2f, fs, mod, true);
    calleeSet := CollectLinkSet(os, base, q2f, fs, mod, false);
  }

  /** The modules of the first `n` functions of `fl`. */
  function ModulesUpTo(fl: seq<FnItem>, n: nat): set<string>
    requires n <= |fl|
  {
    if n == 0 then {} else ModulesUpTo(fl, n - 1) + {fl[n - 1].moduleName}
  }

  /** They are the modules of those functions. */
  lemma {:induction false} ModulesUpToMember(fl: seq<FnItem>, n: nat, m: string)
    requires n <= |fl|
    ensures m in ModulesUpTo(fl, n) <==> exists j :: 0 <= j < n && fl[j].moduleName == m
  {
    if n > 0 {
      ModulesUpToMember(fl, n - 1, m);
    }
  }

  /** `mtf` groups the first `n` functions of `fl` by module, in order. */
  ghost predicate GroupedUpTo(fl: seq<FnItem>, n: nat, mtf: map<string, seq<FnItem>>)
    requires n <= |fl|
  {
    mtf.Keys == ModulesUpTo(fl, n) &&
    forall m :: m in mtf ==> mtf[m] == ModuleFuncs(fl[..n], m)
  }

  /** The loop that fills `module_to_funcs`. */
  method ModuleToFuncs(fl: seq<FnItem>) returns (mtf: map<string, seq<FnItem>>)
    ensures mtf.Keys == set fi | fi in fl :: fi.moduleName
    ensures forall m :: m in mtf ==> mtf[m] == ModuleFuncs(fl, m)
  {
    mtf := map[];
    var i := 0;
    while i < |fl|
      invariant 0 <= i <= |fl|
      invariant GroupedUpTo(fl, i, mtf)
    {
      var fi := fl[i];
      var cur := if fi.moduleName in mtf then mtf[fi.moduleName] else [];
      GroupedStep(fl, i, mtf, cur);
      mtf := mtf[fi.moduleName := cur + [fi]];
      i := i + 1;
    }
    GroupedAll(fl, mtf);
  }

  /** Once every function is grouped, the keys are the modules of `fl`. */
  lemma GroupedAll(fl: seq<FnItem>, mtf: map<string, seq<FnItem>>)
    requires GroupedUpTo(fl, |fl|, mtf)
    ensures mtf.Keys == set fi | fi in fl :: fi.moduleName
    ensures forall m :: m in mtf ==> mtf[m] == ModuleFuncs(fl, m)
  {
    assert fl[..|fl|] == fl;
    forall m ensures m in ModulesUpTo(fl, |fl|) <==> m in set fi | fi in fl :: fi.moduleName {
      ModulesUpToMember(fl, |fl|, m);
      if m in set fi | fi in fl :: fi.moduleName {
        var fi :| fi in fl && fi.moduleName == m;
        var j :| 0 <= j < |fl| && fl[j] == fi;
      }
    }
  }

  /** Appending `fl[i]` to its module's list keeps the grouping in step. */
  lemma GroupedStep(fl: seq<FnItem>, i: nat, mtf: map<string, seq<FnItem>>, cur: seq<FnItem>)
    requires i < |fl| && GroupedUpTo(fl, i, mtf)
    requires cur == if fl[i].moduleName in mtf then mtf[fl[i].moduleName] else []
    ensures GroupedUpTo(fl, i + 1, mtf[fl[i].moduleName := cur + [fl[i]]])
  {
    var fi := fl[i];
    var next := mtf[fi.moduleName := cur + [fi]];
    if fi.moduleName !in mtf {
      ModuleFuncsAbsent(fl, i, fi.moduleName);
    }
    forall m | m in next ensures next[m] == ModuleFuncs(fl[..i + 1], m) {
      ModuleFuncsSnoc(fl, i, m);
    }
  }

  /** A module none of the first `i` functions belongs to has none of them. */
  lemma ModuleFuncsAbsent(fl: seq<FnItem>, i: nat, mod: string)
    requires i <= |fl| && mod !in ModulesUpTo(fl, i)
    ensures ModuleFuncs(fl[..i], mod) == []
  {
    ModulesUpToMember(fl, i, mod);
    forall fi | fi in fl[..i] ensures fi.moduleName != mod {
      var j :| 0 <= j < i && fl[..i][j] == fi;
      assert fl[j] == fi;
    }
    ModuleFuncsNone(fl[..i], mod);
  }

  /** The functions of module `m` among the first `i + 1` functions. */
  lemma ModuleFuncsSnoc(fl: seq<FnItem>, i: nat, m: string)
    requires i < |fl|
    ensures ModuleFuncs(fl[..i + 1], m) == ModuleFuncs(fl[..i], m) + (if fl[i].moduleName == m then [fl[i]] else [])
  {
    assert fl[..i + 1][..i] == fl[..i];
  }

  datatype Component = Component(name: string, incoming: seq<string>, outgoing: seq<string>, functions: seq<string>)

  function FunctionNames(fs: seq<FnItem>): (r: seq<string>)
    ensures |r| == |fs| && forall i :: 0 <= i < |fs| ==> r[i] == fs[i].functionName
  {
    seq(|fs|, i requires 0 <= i < |fs| => fs[i].functionName)
  }

  /** One entry of component.json. */
  function ComponentOf(os: Paths.Os, base: string, q2f: map<string, set<string>>, fl: seq<FnItem>, mod: string): Component {
    var fs := ModuleFuncs(fl, mod);
    Component(mod,
      SortSet(LinkedModules(os, base, q2f, fs, |fs|, mod, true)),
      SortSet(LinkedModules(os, base, q2f, fs, |fs|, mod, false)),
      FunctionNames(fs))
  }

  /** The caller (or callee) modules of `mod`, as the first loop over
      `module_names` leaves them in `caller_sets` (or `callee_sets`). */
  function LinkSpec(os: Paths.Os, base: string, q2f: map<string, set<string>>, fl: seq<FnItem>, mod: string, callers: bool): set<string> {
    LinkedModules(os, base, q2f, ModuleFuncs(fl, mod), |ModuleFuncs(fl, mod)|, mod, callers)
  }

  /** A component's incoming and outgoing lists are sorted without repeats. */
  lemma ComponentSorted(os: Paths.Os, base: string, q2f: map<string, set<string>>, fl: seq<FnItem>, mod: string)
    ensures StrictlySorted(ComponentOf(os, base, q2f, fl, mod).incoming)
    ensures StrictlySorted(ComponentOf(os, base, q2f, fl, mod).outgoing)
  {
    var fs := ModuleFuncs(fl, mod);
    SortSetSorted(LinkedModules(os, base, q2f, fs, |fs|, mod, true));
    SortSetSorted(LinkedModules(os, base, q2f, fs, |fs|, mod, false));
  }

  /** A component's incoming (outgoing) list never names the component itself, and
      holds exactly the other modules that define a caller (callee) of one of the
      component's functions. */
  lemma ComponentLinks(os: Paths.Os, base: string, q2f: map<string, set<string>>, fl: seq<FnItem>, mod: string,
                       callers: bool, x: string)
    ensures x in (if callers then ComponentOf(os, base, q2f, fl, mod).incoming else ComponentOf(os, base, q2f, fl, mod).outgoing) <==>
      x != mod && exists fi :: fi in fl && fi.moduleName == mod && FnLinks(os, base, q2f, fi, callers, x)
  {
    var fs := ModuleFuncs(fl, mod);
    assert (if callers then ComponentOf(os, base, q2f, fl, mod).incoming else ComponentOf(os, base, q2f, fl, mod).outgoing)
      == SortSet(LinkedModules(os, base, q2f, fs, |fs|, mod, callers));
    LinkedModulesMember(os, base, q2f, fs, |fs|, mod, callers, x);
    ModuleFuncsExists(fl, mod, fi => FnLinks(os, base, q2f, fi, callers, x));
  }

  lemma ModuleFuncsExists(fl: seq<FnItem>, mod: string, p: FnItem -> bool)
    ensures (exists i :: 0 <= i < |ModuleFuncs(fl, mod)| && p(ModuleFuncs(fl, mod)[i])) <==>
      exists fi :: fi in fl && fi.moduleName == mod && p(fi)
  {
    var fs := ModuleFuncs(fl, mod);
    if exists fi :: fi in fl && fi.moduleName == mod && p(fi) {
      var fi :| fi in fl && fi.moduleName == mod && p(fi);
      assert fi in fs;
      var i :| 0 <= i < |fs| && fs[i] == fi;
      assert 0 <= i < |fs| && p(fs[i]);
    }
    if exists i :: 0 <= i < |fs| && p(fs[i]) {
      var i :| 0 <= i < |fs| && p(fs[i]);
      var fi := fs[i];
      assert fi in fs;
      assert fi in fl && fi.moduleName == mod && p(fi);
      assert exists fi :: fi in fl && fi.moduleName == mod && p(fi);
      assert exists i :: 0 <= i < |ModuleFuncs(fl, mod)| && p(ModuleFuncs(fl, mod)[i]);
    }
  }

  /** A component lists the function names of its module's functions, in order. */
  lemma ComponentFunctions(os: Paths.Os, base: string, q2f: map<string, set<string>>, fl: seq<FnItem>, mod: string, name: string)
    ensures name in ComponentOf(os, base, q2f, fl, mod).functions <==>
      exists fi :: fi in fl && fi.moduleName == mod && fi.functionName == name
  {
    var fs := ModuleFuncs(fl, mod);
    if name in FunctionNames(fs) {
      var i :| 0 <= i < |fs| && FunctionNames(fs)[i] == name;
      assert fs[i] in fs;
    }
    if exists fi :: fi in fl && fi.moduleName == mod && fi.functionName == name {
      var fi :| fi in fl && fi.moduleName == mod && fi.functionName == name;
      assert fi in fs;
      var i :| 0 <= i < |fs| && fs[i] == fi;
      assert FunctionNames(fs)[i] == name;
    }
  }

  /** The component diagram: the two loops over `module_names`. */
  method Components(os: Paths.Os, base: string, q2f: map<string, set<string>>, fl: seq<FnItem>)
    returns (comps: seq<Component>)
    ensures |comps| == |ModuleNamesOf(fl)|
    ensures forall i :: 0 <= i < |comps| ==> comps[i] == ComponentOf(os, base, q2f, fl, ModuleNamesOf(fl)[i])
  {
    var mtf := ModuleToFuncs(fl);
    var names := SortSet(mtf.Keys);
    var callerSets, calleeSets := AllLinkSets(os, base, q2f, fl, mtf, names);
    comps := BuildComponents(mtf, names, callerSets, calleeSets);
    forall i | 0 <= i < |comps|
      ensures comps[i] == ComponentOf(os, base, q2f, fl, ModuleNamesOf(fl)[i])
    {
      var m := names[i];
      assert m in names;
      ComponentFromParts(os, base, q2f, fl, m, mtf[m], callerSets[m], calleeSets[m]);
    }
  }

  /** The first loop over `module_names`. */
  method AllLinkSets(os: Paths.Os, base: string, q2f: map<string, set<string>>, fl: seq<FnItem>,
                     mtf: map<string, seq<FnItem>>, names: seq<string>)
    returns (callerSets: map<string, set<string>>, calleeSets: map<string, set<string>>)
    requires forall m :: m in names ==> m in mtf && mtf[m] == ModuleFuncs(fl, m)
    ensures forall m :: m in names ==> m in callerSets && callerSets[m] == LinkSpec(os, base, q2f, fl, m, true)
    ensures forall m :: m in names ==> m in calleeSets && calleeSets[m] == LinkSpec(os, base, q2f, fl, m, false)
  {
    callerSets, calleeSets := map[], map[];
    var i := 0;
    while i < |names|
      invariant 0 <= i <= |names|
      invariant forall m :: m in names[..i] ==> m in callerSets && callerSets[m] == LinkSpec(os, base, q2f, fl, m, true)
      invariant forall m :: m in names[..i] ==> m in calleeSets && calleeSets[m] == LinkSpec(os, base, q2f, fl, m, false)
    {
      var m := names[i];
      assert names[..i + 1] == names[..i] + [m];
      var ins, outs := LinkSets(os, base, q2f, mtf[m], m);
      callerSets := callerSets[m := ins];
      calleeSets := calleeSets[m := outs];
      i := i + 1;
    }
    assert names[..i] == names;
  }

  /** The component the second loop builds for module `m` from the stored sets. */
  function StoredComponent(mtf: map<string, seq<FnItem>>, callerSets: map<string, set<string>>,
                           calleeSets: map<string, set<string>>, m: string): Component
    requires m in mtf && m in callerSets && m in calleeSets
  {
    Component(m, SortSet(callerSets[m]), SortSet(calleeSets[m]), FunctionNames(mtf[m]))
  }

  /** The second loop over `module_names`: one component per module, from the
      sets the first loop stored. */
  method BuildComponents(mtf: map<string, seq<FnItem>>, names: seq<string>,
                         callerSets: map<string, set<string>>, calleeSets: map<string, set<string>>)
    returns (comps: seq<Component>)
    requires forall i :: 0 <= i < |names| ==> names[i] in mtf && names[i] in callerSets && names[i] in calleeSets
    ensures |comps| == |names|
    ensures forall i :: 0 <= i < |comps| ==> comps[i] == StoredComponent(mtf, callerSets, calleeSets, names[i])
  {
    comps := [];
    var i := 0;
    while i < |names|
      invariant 0 <= i <= |names| && |comps| == i
      invariant forall j :: 0 <= j < i ==> comps[j] == StoredComponent(mtf, callerSets, calleeSets, names[j])
    {
      var c := StoredComponent(mtf, callerSets, calleeSets, names[i]);
      ghost var prev := comps;
      comps := comps + [c];
      assert forall j :: 0 <= j < i ==> comps[j] == prev[j];
      i := i + 1;
    }
  }

  /** The component the second loop builds from the first loop's sets is the
      module's component. */
  lemma ComponentFromParts(os: Paths.Os, base: string, q2f: map<string, set<string>>, fl: seq<FnItem>, m: string,
                           fs: seq<FnItem>, ins: set<string>, outs: set<string>)
    requires fs == ModuleFuncs(fl, m)
    requires ins == LinkSpec(os, base, q2f, fl, m, true) && outs == LinkSpec(os, base, q2f, fl, m, false)
    ensures Component(m, SortSet(ins), SortSet(outs), FunctionNames(fs)) == ComponentOf(os, base, q2f, fl, m)
  {
  }

  // ------------------------------------------------------------------ units

  /** The functions of `fl` that `keep` accepts, in list order. */
  function Filter(fl: seq<FnItem>, keep: FnItem -> bool): (r: seq<FnItem>)
    ensures forall fi :: fi in r <==> fi in fl && keep(fi)
    decreases |fl|
  {
    if fl == [] then []
    else Filter(fl[..|fl| - 1], keep) + (if keep(fl[|fl| - 1]) then [fl[|fl| - 1]] else [])
  }

  /** `funcs_in`: the functions whose file is `fp`, in list order. */
  function FuncsIn(os: Paths.Os, base: string, fl: seq<FnItem>, fp: string): (r: seq<FnItem>)
    ensures forall fi :: fi in r <==> fi in fl && FileOf(os, base, fi) == fp
  {
    Filter(fl, InFile(os, base, fp))
  }

  /** The test `funcs_in` applies. */
  function InFile(os: Paths.Os, base: string, fp: string): FnItem -> bool {
    fi => FileOf(os, base, fi) == fp
  }

  /** `unit_by_file.get(fp) or f"{get_module_name(fp, base_path)}/{basename}"` */
  function UnitNameFor(os: Paths.Os, base: string, ubf: map<string, string>, fp: string): string {
    if fp in ubf && ubf[fp] != "" then ubf[fp] else Paths.GetModuleName(os, fp, base) + "/" + Basename(fp, os.seps)
  }

  /** The (unit, name) pairs one caller (or callee) name `cn` adds: each file defining
      `cn` whose unit is known, non-empty and not `unitName`. */
  function FilePairs(ubf: map<string, string>, files: set<string>, cn: string, unitName: string): set<(string, string)> {
    set cf | cf in files && cf in ubf && ubf[cf] != "" && ubf[cf] != unitName :: (ubf[cf], cn)
  }

  /** The pairs of the first `n` names. */
  function NamePairs(q2f: map<string, set<string>>, ubf: map<string, string>, names: seq<string>, n: nat,
                     unitName: string): set<(string, string)>
    requires n <= |names|
  {
    if n == 0 then {}
    else NamePairs(q2f, ubf, names, n - 1, unitName) + FilePairs(ubf, Lookup(q2f, names[n - 1]), names[n - 1], unitName)
  }

  /** The pairs of the callers (or callees) of the first `n` functions of `fs`. */
  function UnitPairs(q2f: map<string, set<string>>, ubf: map<string, string>, fs: seq<FnItem>, n: nat,
                     unitName: string, callers: bool): set<(string, string)>
    requires n <= |fs|
  {
    if n == 0 then {}
    else
      (UnitPairs(q2f, ubf, fs, n - 1, unitName, callers) +
       NamePairs(q2f, ubf, Names(fs[n - 1], callers), |Names(fs[n - 1], callers)|, unitName))
  }

  function Firsts(ps: set<(string, string)>): set<string> {
    set p | p in ps :: p.0
  }

  function Seconds(ps: set<(string, string)>, u: string): set<string> {
    set p | p in ps && p.0 == u :: p.1
  }

  /** The `defaultdict(set)` that a set of (unit, name) pairs fills. */
  function Group(ps: set<(string, string)>): map<string, set<string>> {
    map u | u in Firsts(ps) :: Seconds(ps, u)
  }

  /** The grouped map holds exactly the pairs, with no empty entry. */
  lemma GroupRepresents(ps: set<(string, string)>)
    ensures Represents(Group(ps), ps)
  {
    var r := Group(ps);
    assert forall u, c :: u in r && c in r[u] ==> (u, c) in ps;
    assert forall u, c :: (u, c) in ps ==> u in Firsts(ps) && c in Seconds(ps, u);
    forall u | u in r ensures r[u] != {} {
      var p :| p in ps && p.0 == u;
      assert p.1 in Seconds(ps, u);
    }
  }

  /** `m` holds exactly the pairs `ps`, with no empty entry. */
  ghost predicate Represents(m: map<string, set<string>>, ps: set<(string, string)>) {
    (forall u, c :: u in m && c in m[u] <==> (u, c) in ps) &&
    (forall u :: u in m ==> m[u] != {})
  }

  /** A map without empty entries is determined by the pairs it holds. */
  lemma RepresentsUnique(m: map<string, set<string>>, ps: set<(string, string)>)
    requires Represents(m, ps)
    ensures m == Group(ps)
  {
    var g := Group(ps);
    GroupRepresents(ps);
    forall u | u in m ensures u in g {
      var c :| c in m[u];
    }
    forall u | u in g ensures u in m {
      var c :| c in g[u];
    }
    forall u | u in m ensures m[u] == g[u] {
      forall c ensures c in m[u] <==> c in g[u] { }
    }
  }

  /** Adding one pair is one `caller_units[u].add(cn)`. */
  lemma RepresentsAdd(m: map<string, set<string>>, ps: set<(string, string)>, u: string, c: string)
    requires Represents(m, ps)
    ensures Represents(m[u := Lookup(m, u) + {c}], ps + {(u, c)})
  {
  }

  /** The innermost loop: `for cf in qualified_to_file.get(cn, [])`. */
  method AddUnitsOfFiles(ubf: map<string, string>, files: set<string>, cn: string, unitName: string,
                         m: map<string, set<string>>, ghost ps: set<(string, string)>)
    returns (r: map<string, set<string>>)
    requires Represents(m, ps)
    ensures Represents(r, ps + FilePairs(ubf, files, cn, unitName))
  {
    r := m;
    var rest := files;
    while rest != {}
      invariant rest <= files
      invariant Represents(r, ps + FilePairs(ubf, files - rest, cn, unitName))
      decreases |rest|
    {
      var cf :| cf in rest;
      FilesStep(r, ps, ubf, files, rest, cf, cn, unitName);
      rest := rest - {cf};
      if cf in ubf && ubf[cf] != "" && ubf[cf] != unitName {
        var u := ubf[cf];
        r := r[u := Lookup(r, u) + {cn}];
      }
    }
    assert files - rest == files;
  }

  /** One pass of the innermost loop keeps the map in step with the pairs. */
  lemma FilesStep(r: map<string, set<string>>, ps: set<(string, string)>, ubf: map<string, string>, files: set<string>,
                  rest: set<string>, cf: string, cn: string, unitName: string)
    requires cf in rest && rest <= files
    requires Represents(r, ps + FilePairs(ubf, files - rest, cn, unitName))
    ensures Represents(if cf in ubf && ubf[cf] != "" && ubf[cf] != unitName then r[ubf[cf] := Lookup(r, ubf[cf]) + {cn}] else r,
                       ps + FilePairs(ubf, files - (rest - {cf}), cn, unitName))
  {
    var before := ps + FilePairs(ubf, files - rest, cn, unitName);
    FilePairsStep(ubf, files, rest, cf, cn, unitName);
    if cf in ubf && ubf[cf] != "" && ubf[cf] != unitName {
      RepresentsAdd(r, before, ubf[cf], cn);
      assert before + {(ubf[cf], cn)} == ps + FilePairs(ubf, files - (rest - {cf}), cn, unitName);
    } else {
      assert before == ps + FilePairs(ubf, files - (rest - {cf}), cn, unitName);
    }
  }

  /** Taking one more file out of `rest` adds at most its own pair. */
  lemma FilePairsStep(ubf: map<string, string>, files: set<string>, rest: set<string>, cf: string, cn: string, unitName: string)
    requires cf in rest && rest <= files
    ensures FilePairs(ubf, files - (rest - {cf}), cn, unitName) ==
      FilePairs(ubf, files - rest, cn, unitName) +
      (if cf in ubf && ubf[cf] != "" && ubf[cf] != unitName then {(ubf[cf], cn)} else {})
  {
    assert files - (rest - {cf}) == (files - rest) + {cf};
  }

  /** `for cn in f["callersFunctionNames"]` (or the callees) inside the unit loop. */
  method AddUnitsOfNames(q2f: map<string, set<string>>, ubf: map<string, string>, names: seq<string>, unitName: string,
                         m: map<string, set<string>>, ghost ps: set<(string, string)>)
    returns (r: map<string, set<string>>)
    requires Represents(m, ps)
    ensures Represents(r, ps + NamePairs(q2f, ubf, names, |names|, unitName))
  {
    r := m;
    assert ps + NamePairs(q2f, ubf, names, 0, unitName) == ps;
    var i := 0;
    while i < |names|
      invariant 0 <= i <= |names|
      invariant Represents(r, ps + NamePairs(q2f, ubf, names, i, unitName))
    {
      r := AddUnitsOfName(q2f, ubf, names, i, unitName, r, ps);
      i := i + 1;
    }
  }

  /** One pass of the loop over the names: the units of the files defining `names[i]`. */
  method AddUnitsOfName(q2f: map<string, set<string>>, ubf: map<string, string>, names: seq<string>, i: nat,
                        unitName: string, m: map<string, set<string>>, ghost ps: set<(string, string)>)
    returns (r: map<string, set<string>>)
    requires i < |names| && Represents(m, ps + NamePairs(q2f, ubf, names, i, unitName))
    ensures Represents(r, ps + NamePairs(q2f, ubf, names, i + 1, unitName))
  {
    ghost var before := ps + NamePairs(q2f, ubf, names, i, unitName);
    r := AddUnitsOfFiles(ubf, Lookup(q2f, names[i]), names[i], unitName, m, before);
    NamePairsStep(q2f, ubf, names, i, unitName, ps, r);
  }

  /** The callers (or callees) of the function `fs[i]` in one pass of the unit loop. */
  method AddFunctionUnits(q2f: map<string, set<string>>, ubf: map<string, string>, fs: seq<FnItem>, i: nat,
                          unitName: string, callers: bool, m: map<string, set<string>>)
    returns (r: map<string, set<string>>)
    requires i < |fs| && Represents(m, UnitPairs(q2f, ubf, fs, i, unitName, callers))
    ensures Represents(r, UnitPairs(q2f, ubf, fs, i + 1, unitName, callers))
  {
    var names := if callers then fs[i].callers else fs[i].callees;
    assert names == Names(fs[i], callers);
    r := AddUnitsOfNames(q2f, ubf, names, unitName, m, UnitPairs(q2f, ubf, fs, i, unitName, callers));
  }

  /** One more name adds the pairs of the files that define it. */
  lemma NamePairsStep(q2f: map<string, set<string>>, ubf: map<string, string>, names: seq<string>, i: nat,
                      unitName: string, ps: set<(string, string)>, r: map<string, set<string>>)
    requires i < |names|
    requires Represents(r, ps + NamePairs(q2f, ubf, names, i, unitName) + FilePairs(ubf, Lookup(q2f, names[i]), names[i], unitName))
    ensures Represents(r, ps + NamePairs(q2f, ubf, names, i + 1, unitName))
  {
    assert ps + NamePairs(q2f, ubf, names, i, unitName) + FilePairs(ubf, Lookup(q2f, names[i]), names[i], unitName) ==
      ps + NamePairs(q2f, ubf, names, i + 1, unitName);
  }

  /** `caller_units` (or `callee_units`) of one file, filled by the unit loop. */
  method CollectUnitLinks(q2f: map<string, set<string>>, ubf: map<string, string>, fs: seq<FnItem>,
                          unitName: string, callers: bool)
    returns (links: map<string, set<string>>)
    ensures links == Group(UnitPairs(q2f, ubf, fs, |fs|, unitName, callers))
  {
    links := map[];
    var i := 0;
    while i < |fs|
      invariant 0 <= i <= |fs|
      invariant Represents(links, UnitPairs(q2f, ubf, fs, i, unitName, callers))
    {
      links := AddFunctionUnits(q2f, ubf, fs, i, unitName, callers, links);
      i := i + 1;
    }
    RepresentsUnique(links, UnitPairs(q2f, ubf, fs, |fs|, unitName, callers));
  }

  /** `caller_units` and `callee_units` of one file. */
  method UnitLinks(q2f: map<string, set<string>>, ubf: map<string, string>, fs: seq<FnItem>, unitName: string)
    returns (callerUnits: map<string, set<string>>, calleeUnits: map<string, set<string>>)
    ensures callerUnits == Group(UnitPairs(q2f, ubf, fs, |fs|, unitName, true))
    ensures calleeUnits == Group(UnitPairs(q2f, ubf, fs, |fs|, unitName, false))
  {
    callerUnits := CollectUnitLinks(q2f, ubf, fs, unitName, true);
    calleeUnits := CollectUnitLinks(q2f, ubf, fs, unitName, false);
  }

  /** A pair is collected exactly when its unit is a known, non-empty unit other
      than `unitName` of a file defining its name, which is a caller (or callee) of
      one of the functions. */
  lemma {:induction false} UnitPairsMember(q2f: map<string, set<string>>, ubf: map<string, string>, fs: seq<FnItem>,
                                           n: nat, unitName: string, callers: bool, u: string, c: string)
    requires n <= |fs|
    ensures (u, c) in UnitPairs(q2f, ubf, fs, n, unitName, callers) <==>
      u != "" && u != unitName && UnitDefines(q2f, ubf, c, u) && exists i :: 0 <= i < n && c in Names(fs[i], callers)
  {
    if n > 0 {
      UnitPairsMember(q2f, ubf, fs, n - 1, unitName, callers, u, c);
      var names := Names(fs[n - 1], callers);
      NamePairsMember(q2f, ubf, names, |names|, unitName, u, c);
      ExistsSnoc(fs, n, fi => c in Names(fi, callers));
    }
  }

  /** Some file defining the name `c` has the unit `u`. */
  predicate UnitDefines(q2f: map<string, set<string>>, ubf: map<string, string>, c: string, u: string) {
    exists cf :: cf in Lookup(q2f, c) && cf in ubf && ubf[cf] == u
  }

  lemma {:induction false} NamePairsMember(q2f: map<string, set<string>>, ubf: map<string, string>, names: seq<string>,
                                           n: nat, unitName: string, u: string, c: string)
    requires n <= |names|
    ensures (u, c) in NamePairs(q2f, ubf, names, n, unitName) <==>
      u != "" && u != unitName && UnitDefines(q2f, ubf, c, u) && c in names[..n]
  {
    if n > 0 {
      NamePairsMember(q2f, ubf, names, n - 1, unitName, u, c);
      assert names[..n] == names[..n - 1] + [names[n - 1]];
      if c == names[n - 1] && u != "" && u != unitName && UnitDefines(q2f, ubf, c, u) {
        var cf :| cf in Lookup(q2f, c) && cf in ubf && ubf[cf] == u;
        assert (u, c) in FilePairs(ubf, Lookup(q2f, names[n - 1]), names[n - 1], unitName);
      }
    }
  }

  /** One entry of a unit's callerUnits (or calleesUnits). */
  datatype UnitRef = UnitRef(unitName: string, functionNames: seq<string>)

  /** `[{"unitName": u, "functionNames": sorted(fns)} for u, fns in sorted(m.items())]` */
  function Refs(m: map<string, set<string>>): (r: seq<UnitRef>)
    ensures |r| == |m|
  {
    var keys := SortSet(m.Keys);
    seq(|keys|, i requires 0 <= i < |keys| => UnitRef(keys[i], SortSet(m[keys[i]])))
  }

  /** One entry of units.json. */
  datatype UnitOut = UnitOut(unitName: string, fileName: string, moduleName: string, functionNames: seq<string>,
                             callerUnits: seq<UnitRef>, calleesUnits: seq<UnitRef>)

  function QualifiedNames(fs: seq<FnItem>): set<string> {
    set fi | fi in fs :: fi.qualifiedName
  }

  /** The units.json entry of the file `fp`. */
  function UnitOf(os: Paths.Os, base: string, q2f: map<string, set<string>>, ubf: map<string, string>,
                  fl: seq<FnItem>, fp: string): UnitOut {
    var fs := FuncsIn(os, base, fl, fp);
    var name := UnitNameFor(os, base, ubf, fp);
    UnitOut(name, Basename(fp, os.seps), Split(name, '/')[0], SortSet(QualifiedNames(fs)),
      LinkRefs(os, base, q2f, ubf, fl, fp, true), LinkRefs(os, base, q2f, ubf, fl, fp, false))
  }

  /** A unit's callerUnits (or calleesUnits). */
  function LinkRefs(os: Paths.Os, base: string, q2f: map<string, set<string>>, ubf: map<string, string>,
                    fl: seq<FnItem>, fp: string, callers: bool): seq<UnitRef> {
    var fs := FuncsIn(os, base, fl, fp);
    Refs(Group(UnitPairs(q2f, ubf, fs, |fs|, UnitNameFor(os, base, ubf, fp), callers)))
  }

  /** One pass of the unit loop. */
  method UnitFor(os: Paths.Os, base: string, q2f: map<string, set<string>>, ubf: map<string, string>,
                 fl: seq<FnItem>, fp: string) returns (unit: UnitOut)
    ensures unit == UnitOf(os, base, q2f, ubf, fl, fp)
  {
    var fs := FuncsIn(os, base, fl, fp);
    var name := UnitNameFor(os, base, ubf, fp);
    var callerUnits, calleeUnits := UnitLinks(q2f, ubf, fs, name);
    unit := UnitOut(name, Basename(fp, os.seps), Split(name, '/')[0], SortSet(QualifiedNames(fs)),
      Refs(callerUnits), Refs(calleeUnits));
  }

  /** Extending a pointwise image of `xs` by the image of its next element. */
  lemma MappedSnoc<A, B>(xs: seq<A>, ys: seq<B>, y: B, f: A -> B)
    requires |xs| == |ys| + 1 && y == f(xs[|ys|])
    requires forall j :: 0 <= j < |ys| ==> ys[j] == f(xs[j])
    ensures forall j :: 0 <= j < |xs| ==> (ys + [y])[j] == f(xs[j])
  {
  }

  /** `UnitOf` over the fixed inputs, as a function of the file. */
  function UnitMaker(os: Paths.Os, base: string, q2f: map<string, set<string>>, ubf: map<string, string>,
                     fl: seq<FnItem>): string -> UnitOut {
    fp => UnitOf(os, base, q2f, ubf, fl, fp)
  }

  /** The unit loop over `file_paths`: units.json holds the unit of each file, in
      the order of `files`. */
  method Units(os: Paths.Os, base: string, q2f: map<string, set<string>>, ubf: map<string, string>,
               fl: seq<FnItem>, files: seq<string>) returns (units: seq<UnitOut>)
    ensures units == Grouping.Image(files, UnitMaker(os, base, q2f, ubf, fl))
  {
    units := [];
    var i := 0;
    while i < |files|
      invariant 0 <= i <= |files|
      invariant units == Grouping.Image(files[..i], UnitMaker(os, base, q2f, ubf, fl))
    {
      units := AppendUnit(os, base, q2f, ubf, fl, files, i, units);
      i := i + 1;
    }
    assert files[..i] == files;
  }

  /** One pass of the unit loop. */
  method AppendUnit(os: Paths.Os, base: string, q2f: map<string, set<string>>, ubf: map<string, string>,
                    fl: seq<FnItem>, files: seq<string>, i: nat, units: seq<UnitOut>) returns (r: seq<UnitOut>)
    requires i < |files| && units == Grouping.Image(files[..i], UnitMaker(os, base, q2f, ubf, fl))
    ensures r == Grouping.Image(files[..i + 1], UnitMaker(os, base, q2f, ubf, fl))
  {
    var unit := UnitFor(os, base, q2f, ubf, fl, files[i]);
    ImageSnoc(files, i, UnitMaker(os, base, q2f, ubf, fl), unit);
    r := units + [unit];
  }

  /** The image of one more element. */
  lemma ImageSnoc<A, B>(xs: seq<A>, i: nat, f: A -> B, y: B)
    requires i < |xs| && y == f(xs[i])
    ensures Grouping.Image(xs[..i + 1], f) == Grouping.Image(xs[..i], f) + [y]
  {
    assert xs[..i + 1] == xs[..i] + [xs[i]];
    Grouping.ImageAppend(xs[..i], [xs[i]], f);
  }

  function RefNames(refs: seq<UnitRef>): (r: seq<string>)
    ensures |r| == |refs| && forall j :: 0 <= j < |refs| ==> r[j] == refs[j].unitName
  {
    seq(|refs|, j requires 0 <= j < |refs| => refs[j].unitName)
  }

  /** The entries are ordered by unit name without repeats, and each lists the
      sorted, non-empty set of names the map holds for its unit. */
  lemma RefsSorted(m: map<string, set<string>>)
    ensures StrictlySorted(RefNames(Refs(m)))
    ensures forall j :: 0 <= j < |Refs(m)| ==> (Refs(m)[j].unitName in m &&
      Refs(m)[j].functionNames == SortSet(m[Refs(m)[j].unitName]))
    ensures forall u :: u in m <==> u in RefNames(Refs(m))
  {
    SortSetSorted(m.Keys);
    assert RefNames(Refs(m)) == SortSet(m.Keys);
  }

  /** The entries built from the pairs of `fs` are sorted by unit name without
      repeats, and each names a unit other than `name` and not "", with a sorted
      non-empty list of function names. */
  lemma PairRefsShape(q2f: map<string, set<string>>, ubf: map<string, string>, fs: seq<FnItem>, name: string, callers: bool)
    ensures StrictlySorted(RefNames(Refs(Group(UnitPairs(q2f, ubf, fs, |fs|, name, callers)))))
    ensures forall r :: r in Refs(Group(UnitPairs(q2f, ubf, fs, |fs|, name, callers))) ==>
      (r.unitName != "" && r.unitName != name && StrictlySorted(r.functionNames) && r.functionNames != [])
  {
    var m := Group(UnitPairs(q2f, ubf, fs, |fs|, name, callers));
    GroupRepresents(UnitPairs(q2f, ubf, fs, |fs|, name, callers));
    RefsSorted(m);
    forall v | v in m ensures v != "" && v != name && m[v] != {} {
      var d :| d in m[v];
      UnitPairsMember(q2f, ubf, fs, |fs|, name, callers, v, d);
    }
    RefsShape(m, name);
  }

  /** With no key "" or `name`, every entry names another unit and lists a
      sorted, non-empty set of names. */
  lemma RefsShape(m: map<string, set<string>>, name: string)
    requires forall v :: v in m ==> v != "" && v != name && m[v] != {}
    ensures forall r :: r in Refs(m) ==>
      (r.unitName != "" && r.unitName != name && StrictlySorted(r.functionNames) && r.functionNames != [])
  {
    var refs := Refs(m);
    RefsSorted(m);
    forall r | r in refs ensures r.unitName != "" && r.unitName != name && StrictlySorted(r.functionNames) && r.functionNames != [] {
      var j :| 0 <= j < |refs| && refs[j] == r;
      var d :| d in m[r.unitName];
      assert d in r.functionNames;
      SortSetSorted(m[r.unitName]);
    }
  }

  /** Unit `u` lists the name `c` in the entries built from the pairs of `fs`
      exactly when `u` is neither "" nor `name`, a file defining `c` belongs to `u`,
      and `c` is a caller (callee) of a function of `fs`. */
  lemma PairRefsMember(q2f: map<string, set<string>>, ubf: map<string, string>, fs: seq<FnItem>, name: string,
                       callers: bool, u: string, c: string)
    ensures (exists r :: r in Refs(Group(UnitPairs(q2f, ubf, fs, |fs|, name, callers))) && r.unitName == u && c in r.functionNames) <==>
      (u != "" && u != name && UnitDefines(q2f, ubf, c, u) && exists fi :: fi in fs && c in Names(fi, callers))
  {
    var ps := UnitPairs(q2f, ubf, fs, |fs|, name, callers);
    RefsMember(Group(ps), u, c);
    GroupRepresents(ps);
    UnitPairsMember(q2f, ubf, fs, |fs|, name, callers, u, c);
    if exists fi :: fi in fs && c in Names(fi, callers) {
      var fi :| fi in fs && c in Names(fi, callers);
      var i :| 0 <= i < |fs| && fs[i] == fi;
    }
  }

  /** An entry of `Refs(m)` lists `c` under `u` exactly when the map holds it. */
  lemma RefsMember(m: map<string, set<string>>, u: string, c: string)
    ensures (exists r :: r in Refs(m) && r.unitName == u && c in r.functionNames) <==> u in m && c in m[u]
  {
    if exists r :: r in Refs(m) && r.unitName == u && c in r.functionNames {
      var r :| r in Refs(m) && r.unitName == u && c in r.functionNames;
      RefsEntrySound(m, r, c);
    }
    if u in m && c in m[u] {
      RefsEntryComplete(m, u, c);
    }
  }

  /** What an entry of `Refs(m)` lists, the map holds. */
  lemma RefsEntrySound(m: map<string, set<string>>, r: UnitRef, c: string)
    requires r in Refs(m) && c in r.functionNames
    ensures r.unitName in m && c in m[r.unitName]
  {
    var refs := Refs(m);
    RefsSorted(m);
    var j :| 0 <= j < |refs| && refs[j] == r;
  }

  /** What the map holds, an entry of `Refs(m)` lists. */
  lemma RefsEntryComplete(m: map<string, set<string>>, u: string, c: string)
    requires u in m && c in m[u]
    ensures exists r :: r in Refs(m) && r.unitName == u && c in r.functionNames
  {
    var refs := Refs(m);
    RefsSorted(m);
    assert u in RefNames(refs);
    var j :| 0 <= j < |refs| && RefNames(refs)[j] == u;
    assert refs[j] in refs && refs[j].unitName == u && c in refs[j].functionNames;
  }

  /** A unit's callerUnits (calleesUnits) are sorted by unit name without repeats,
      and each names a unit other than this one and not "", with a sorted non-empty
      list of function names. */
  lemma LinkRefsShape(os: Paths.Os, base: string, q2f: map<string, set<string>>, ubf: map<string, string>,
                      fl: seq<FnItem>, fp: string, callers: bool)
    ensures StrictlySorted(RefNames(LinkRefs(os, base, q2f, ubf, fl, fp, callers)))
    ensures forall r :: r in LinkRefs(os, base, q2f, ubf, fl, fp, callers) ==>
      (r.unitName != "" && r.unitName != UnitNameFor(os, base, ubf, fp) &&
       StrictlySorted(r.functionNames) && r.functionNames != [])
  {
    PairRefsShape(q2f, ubf, FuncsIn(os, base, fl, fp), UnitNameFor(os, base, ubf, fp), callers);
  }

  /** Unit `u` lists the name `c` among a unit's callerUnits (calleesUnits) exactly
      when `u` is neither "" nor this unit, a file defining `c` belongs to `u`, and
      `c` is a caller (callee) of a function of the file (`FuncsIn` holds exactly the
      functions whose file is `fp`). */
  lemma LinkRefsMember(os: Paths.Os, base: string, q2f: map<string, set<string>>, ubf: map<string, string>,
                       fl: seq<FnItem>, fp: string, callers: bool, u: string, c: string)
    ensures (exists r :: r in LinkRefs(os, base, q2f, ubf, fl, fp, callers) && r.unitName == u && c in r.functionNames) <==>
      (u != "" && u != UnitNameFor(os, base, ubf, fp) && UnitDefines(q2f, ubf, c, u) &&
       exists fi :: fi in FuncsIn(os, base, fl, fp) && c in Names(fi, callers))
  {
    PairRefsMember(q2f, ubf, FuncsIn(os, base, fl, fp), UnitNameFor(os, base, ubf, fp), callers, u, c);
  }

  /** For a file of `file_paths` the unit is named "<module>/<basename>" after its
      module, its moduleName is that module, and its functionNames are the sorted
      qualified names of the functions in the file. */
  lemma UnitNaming(os: Paths.Os, base: string, q2f: map<string, set<string>>, ubf: map<string, string>,
                   fl: seq<FnItem>, files: seq<string>, fp: string, q: string)
    requires forall f :: f in ubf <==> f in files
    requires forall f :: f in ubf ==> ubf[f] == UnitNameOf(os, base, f)
    requires fp in files
    ensures UnitOf(os, base, q2f, ubf, fl, fp).unitName == UnitNameOf(os, base, fp)
    ensures UnitOf(os, base, q2f, ubf, fl, fp).moduleName == ModuleOfFile(os, base, fp)
    ensures UnitOf(os, base, q2f, ubf, fl, fp).fileName == Basename(fp, os.seps)
    ensures StrictlySorted(UnitOf(os, base, q2f, ubf, fl, fp).functionNames)
    ensures q in UnitOf(os, base, q2f, ubf, fl, fp).functionNames <==>
      exists fi :: fi in fl && FileOf(os, base, fi) == fp && fi.qualifiedName == q
  {
    UnitNameModule(os, base, fp);
    var fs := FuncsIn(os, base, fl, fp);
    SortSetSorted(QualifiedNames(fs));
    if q in QualifiedNames(fs) {
      var fi :| fi in fs && fi.qualifiedName == q;
    }
  }
}
