/** The reports analyzer.py builds from its tables once both passes are done and
    the relationships are filled: one entry per module with its caller and callee
    modules, one per file, and one component per module. */
module AnalyzerReport {
  import opened Wrappers
  import opened Text
  import Paths
  import opened Ordering
  import opened Walker

  datatype ModuleInfo = ModuleInfo(
    moduleName: string, modulePath: string, callerModules: seq<string>, calleeModules: seq<string>,
    functions: seq<FunctionInfo>)

  datatype FileInfo = FileInfo(
    path: string, relativePath: string, moduleName: string, fileName: string,
    functionCount: nat, functionNames: seq<string>)

  datatype Component = Component(name: string, incoming: seq<string>, outgoing: seq<string>, functions: seq<string>)

  function ModuleKeys(t: Tables, m: string): seq<string> {
    if m in t.moduleFunctions then t.moduleFunctions[m] else []
  }

  /** The modules other than `m` reached through `g` from the first `n` keys of `ks`
      that are recorded functions (`g` is the reverse graph for callers, the call
      graph for callees). */
  function LinkedModules(t: Tables, g: map<string, set<string>>, m: string, ks: seq<string>, n: nat): set<string>
    requires n <= |ks|
  {
    set j, c | 0 <= j < n && ks[j] in t.functions && c in Lookup(g, ks[j]) && c in t.functionToModule &&
      t.functionToModule[c] != m :: t.functionToModule[c]
  }

  /** The functions of a module as its entry lists them: its keys that are recorded
      functions, in the order they were appended. */
  function ListedFunctions(t: Tables, ks: seq<string>): (r: seq<FunctionInfo>)
    ensures |r| <= |ks|
    ensures forall f :: f in r ==> exists k :: k in ks && k in t.functions && t.functions[k] == f
  {
    if ks == [] then []
    else (if ks[0] in t.functions then [t.functions[ks[0]]] else []) + ListedFunctions(t, ks[1..])
  }

  /** One entry of modules.json. */
  function ModuleSpec(t: Tables, os: Paths.Os, base: string, m: string): (r: ModuleInfo)
    ensures r.moduleName == m
  {
    var ks := ModuleKeys(t, m);
    ModuleInfo(m, os.abspath(os.join(base, m)),
      SortSet(LinkedModules(t, t.reverseCallGraph, m, ks, |ks|)),
      SortSet(LinkedModules(t, t.callGraph, m, ks, |ks|)),
      ListedFunctions(t, ks))
  }

  /** A module's caller modules are sorted, never include the module itself, and are
      exactly the other modules holding a caller of one of its functions; likewise
      for callee modules. */
  lemma ModuleSpecLinks(t: Tables, os: Paths.Os, base: string, m: string, x: string)
    ensures StrictlySorted(ModuleSpec(t, os, base, m).callerModules)
    ensures StrictlySorted(ModuleSpec(t, os, base, m).calleeModules)
    ensures m !in ModuleSpec(t, os, base, m).callerModules && m !in ModuleSpec(t, os, base, m).calleeModules
    ensures x in ModuleSpec(t, os, base, m).callerModules <==>
      x != m && LinksTo(t, t.reverseCallGraph, ModuleKeys(t, m), x)
    ensures x in ModuleSpec(t, os, base, m).calleeModules <==>
      x != m && LinksTo(t, t.callGraph, ModuleKeys(t, m), x)
  {
    var ks := ModuleKeys(t, m);
    SortSetSorted(LinkedModules(t, t.reverseCallGraph, m, ks, |ks|));
    SortSetSorted(LinkedModules(t, t.callGraph, m, ks, |ks|));
    LinkedModulesMeaning(t, t.reverseCallGraph, m, ks, x);
    LinkedModulesMeaning(t, t.callGraph, m, ks, x);
  }

  /** Some recorded function among `ks` is linked through `g` to a function of
      module `x`. */
  ghost predicate LinksTo(t: Tables, g: map<string, set<string>>, ks: seq<string>, x: string) {
    exists k, c :: k in ks && k in t.functions && c in Lookup(g, k) && c in t.functionToModule && t.functionToModule[c] == x
  }

  lemma LinkedModulesMeaning(t: Tables, g: map<string, set<string>>, m: string, ks: seq<string>, x: string)
    ensures x in LinkedModules(t, g, m, ks, |ks|) <==> x != m && LinksTo(t, g, ks, x)
  {
    if x != m && LinksTo(t, g, ks, x) {
      var k, c :| k in ks && k in t.functions && c in Lookup(g, k) && c in t.functionToModule && t.functionToModule[c] == x;
      var j :| 0 <= j < |ks| && ks[j] == k;
      assert x in LinkedModules(t, g, m, ks, |ks|);
    }
  }

  /** The modules, other than `m`, of the functions in `cs`. */
  function ModulesOf(t: Tables, m: string, cs: set<string>): set<string> {
    set c | c in cs && c in t.functionToModule && t.functionToModule[c] != m :: t.functionToModule[c]
  }

  /** The inner loop: the modules of one function's callers (or callees). */
  method CollectModulesOf(t: Tables, m: string, cs: set<string>) returns (r: set<string>)
    ensures r == ModulesOf(t, m, cs)
  {
    r := {};
    var rest := cs;
    while rest != {}
      invariant rest <= cs
      invariant r == ModulesOf(t, m, cs - rest)
      decreases |rest|
    {
      var c :| c in rest;
      assert cs - (rest - {c}) == (cs - rest) + {c};
      rest := rest - {c};
      if c in t.functionToModule && t.functionToModule[c] != m {
        r := r + {t.functionToModule[c]};
      }
    }
    assert cs - rest == cs;
  }

  /** The loops that collect `caller_modules` (or `callee_modules`) for one module. */
  method CollectLinkedModules(t: Tables, g: map<string, set<string>>, m: string, ks: seq<string>) returns (r: set<string>)
    ensures r == LinkedModules(t, g, m, ks, |ks|)
  {
    r := {};
    var i := 0;
    while i < |ks|
      invariant 0 <= i <= |ks|
      invariant r == LinkedModules(t, g, m, ks, i)
    {
      var k := ks[i];
      if k in t.functions {
        var more := CollectModulesOf(t, m, Lookup(g, k));
        r := r + more;
      }
      LinkedModulesStep(t, g, m, ks, i);
      i := i + 1;
    }
  }

  lemma LinkedModulesStep(t: Tables, g: map<string, set<string>>, m: string, ks: seq<string>, i: nat)
    requires i < |ks|
    ensures LinkedModules(t, g, m, ks, i + 1) == LinkedModules(t, g, m, ks, i) +
      (if ks[i] in t.functions then ModulesOf(t, m, Lookup(g, ks[i])) else {})
  {
  }

  /** One iteration of the loop over `sorted(module_functions.keys())`. */
  method ModuleEntry(t: Tables, os: Paths.Os, base: string, m: string) returns (info: ModuleInfo)
    ensures info == ModuleSpec(t, os, base, m)
  {
    var ks := ModuleKeys(t, m);
    var callers := CollectLinkedModules(t, t.reverseCallGraph, m, ks);
    var callees := CollectLinkedModules(t, t.callGraph, m, ks);
    var listed: seq<FunctionInfo> := [];
    var i := |ks|;
    while i > 0
      invariant 0 <= i <= |ks|
      invariant listed == ListedFunctions(t, ks[i..])
    {
      i := i - 1;
      assert ks[i..][1..] == ks[i + 1..];
      if ks[i] in t.functions {
        listed := [t.functions[ks[i]]] + listed;
      }
    }
    info := ModuleInfo(m, os.abspath(os.join(base, m)), SortSet(callers), SortSet(callees), listed);
  }

  function ModuleNames(mods: seq<ModuleInfo>): seq<string> {
    seq(|mods|, i requires 0 <= i < |mods| => mods[i].moduleName)
  }

  /** `modules_data`: one entry per module, in sorted module order. */
  method ModulesData(t: Tables, os: Paths.Os, base: string) returns (mods: seq<ModuleInfo>)
    ensures |mods| == |t.moduleFunctions|
    ensures StrictlySorted(ModuleNames(mods))
    ensures forall m :: m in t.moduleFunctions <==> m in ModuleNames(mods)
    ensures forall i :: 0 <= i < |mods| ==> mods[i] == ModuleSpec(t, os, base, mods[i].moduleName)
  {
    var names := SortSet(t.moduleFunctions.Keys);
    SortSetSorted(t.moduleFunctions.Keys);
    mods := ModuleEntries(t, os, base, names);
  }

  /** The loop of `modules_data` over the sorted module names. */
  method ModuleEntries(t: Tables, os: Paths.Os, base: string, names: seq<string>) returns (mods: seq<ModuleInfo>)
    ensures ModuleNames(mods) == names
    ensures forall j :: 0 <= j < |mods| ==> mods[j] == ModuleSpec(t, os, base, names[j])
  {
    mods := [];
    var i := 0;
    while i < |names|
      invariant 0 <= i <= |names|
      invariant ModuleNames(mods) == names[..i]
      invariant forall j :: 0 <= j < i ==> mods[j] == ModuleSpec(t, os, base, names[j])
    {
      var info := ModuleEntry(t, os, base, names[i]);
      mods := mods + [info];
      i := i + 1;
    }
    assert names[..i] == names;
  }

  /** `component_data`: a component per module entry, with its incoming and outgoing
      modules and the names of its functions. */
  method ComponentsData(mods: seq<ModuleInfo>) returns (comps: seq<Component>)
    ensures |comps| == |mods|
    ensures forall i :: 0 <= i < |mods| ==>
      comps[i].name == mods[i].moduleName && comps[i].incoming == mods[i].callerModules &&
      comps[i].outgoing == mods[i].calleeModules && |comps[i].functions| == |mods[i].functions| &&
      forall j :: 0 <= j < |mods[i].functions| ==> comps[i].functions[j] == mods[i].functions[j].functionName
  {
    comps := [];
    var i := 0;
    while i < |mods|
      invariant 0 <= i <= |mods|
      invariant |comps| == i
      invariant forall j :: 0 <= j < i ==>
        comps[j].name == mods[j].moduleName && comps[j].incoming == mods[j].callerModules &&
        comps[j].outgoing == mods[j].calleeModules && |comps[j].functions| == |mods[j].functions| &&
        forall l :: 0 <= l < |mods[j].functions| ==> comps[j].functions[l] == mods[j].functions[l].functionName
    {
      var fs := mods[i].functions;
      var names := seq(|fs|, l requires 0 <= l < |fs| => fs[l].functionName);
      comps := comps + [Component(mods[i].moduleName, mods[i].callerModules, mods[i].calleeModules, names)];
      i := i + 1;
    }
  }

  /** A component's incoming and outgoing modules never name the component itself. */
  lemma ComponentsExcludeSelf(t: Tables, os: Paths.Os, base: string, mods: seq<ModuleInfo>, comps: seq<Component>, i: nat)
    requires forall j :: 0 <= j < |mods| ==> mods[j] == ModuleSpec(t, os, base, mods[j].moduleName)
    requires |comps| == |mods| && i < |comps|
    requires comps[i].name == mods[i].moduleName && comps[i].incoming == mods[i].callerModules &&
      comps[i].outgoing == mods[i].calleeModules
    ensures comps[i].name !in comps[i].incoming && comps[i].name !in comps[i].outgoing
  {
    ModuleSpecLinks(t, os, base, mods[i].moduleName, mods[i].moduleName);
  }

  // --------------------------------------------------------------------- files

  /** `f["functionId"].rsplit(":", 1)[0]` */
  function FilePart(id: string): string {
    RSplitOnce(id, ':')[0]
  }

  /** The records of `ks`, in that order. */
  function ValuesAt(t: Tables, ks: seq<string>): (r: seq<FunctionInfo>)
    requires forall k :: k in ks ==> k in t.functions
    ensures |r| == |ks|
    ensures forall i :: 0 <= i < |ks| ==> r[i] == t.functions[ks[i]]
  {
    if ks == [] then [] else [t.functions[ks[0]]] + ValuesAt(t, ks[1..])
  }

  /** `list(functions.values())` */
  function FunctionList(t: Tables): (r: seq<FunctionInfo>)
    requires forall k :: k in t.order ==> k in t.functions
    ensures |r| == |t.order|
  {
    ValuesAt(t, t.order)
  }

  /** The records whose id names the file `path`, in list order. */
  function InFile(fs: seq<FunctionInfo>, path: string): (r: seq<FunctionInfo>)
    ensures |r| <= |fs|
  {
    if fs == [] then []
    else (if FilePart(fs[0].functionId) == path then [fs[0]] else []) + InFile(fs[1..], path)
  }

  /** InFile keeps exactly the records of `path`. */
  lemma {:induction false} InFileMember(fs: seq<FunctionInfo>, path: string)
    ensures forall f :: f in InFile(fs, path) <==> f in fs && FilePart(f.functionId) == path
  {
    if fs != [] {
      InFileMember(fs[1..], path);
      assert fs == [fs[0]] + fs[1..];
    }
  }

  function QualifiedNames(fs: seq<FunctionInfo>): seq<string> {
    seq(|fs|, i requires 0 <= i < |fs| => fs[i].qualifiedName)
  }

  /** `os.path.relpath(path, base)`, or the path itself where that fails. */
  function RelativeOrSelf(os: Paths.Os, path: string, base: string): string {
    match os.relpath(path, base)
    case Some(rel) => rel
    case None => path
  }

  /** One entry of files.json. */
  function FileSpec(list: seq<FunctionInfo>, os: Paths.Os, moduleBase: string, path: string): (r: FileInfo)
    ensures r.path == path
  {
    var fs := InFile(list, path);
    FileInfo(path, RelativeOrSelf(os, path, os.abspath(moduleBase)), AnalyzerModuleName(os, path, moduleBase),
      Basename(path, os.seps), |fs|, SortDedup(QualifiedNames(fs)))
  }

  /** A file entry's functionNames are sorted, free of duplicates, and are exactly the
      qualified names of the functions whose id names that file. */
  lemma FileSpecNames(t: Tables, os: Paths.Os, moduleBase: string, path: string, n: string)
    requires forall k :: k in t.order ==> k in t.functions
    ensures StrictlySorted(FileSpec(FunctionList(t), os, moduleBase, path).functionNames)
    ensures n in FileSpec(FunctionList(t), os, moduleBase, path).functionNames <==>
      exists k :: k in t.order && FilePart(t.functions[k].functionId) == path && t.functions[k].qualifiedName == n
  {
    FileNamesMeaning(t, path);
  }

  lemma FileNamesMeaning(t: Tables, path: string)
    requires forall k :: k in t.order ==> k in t.functions
    ensures forall n :: n in QualifiedNames(InFile(FunctionList(t), path)) <==>
      exists k :: k in t.order && FilePart(t.functions[k].functionId) == path && t.functions[k].qualifiedName == n
  {
    InFileMember(FunctionList(t), path);
    forall n ensures n in QualifiedNames(InFile(FunctionList(t), path)) <==>
      exists k :: k in t.order && FilePart(t.functions[k].functionId) == path && t.functions[k].qualifiedName == n
    {
      if n in QualifiedNames(InFile(FunctionList(t), path)) {
        FileNameSound(t, path, n);
      }
      if exists k :: k in t.order && FilePart(t.functions[k].functionId) == path && t.functions[k].qualifiedName == n {
        var k :| k in t.order && FilePart(t.functions[k].functionId) == path && t.functions[k].qualifiedName == n;
        FileNameComplete(t, path, k);
      }
    }
  }

  /** A listed name belongs to a recorded function of the file. */
  lemma FileNameSound(t: Tables, path: string, n: string)
    requires forall k :: k in t.order ==> k in t.functions
    requires forall f :: f in InFile(FunctionList(t), path) <==> f in FunctionList(t) && FilePart(f.functionId) == path
    requires n in QualifiedNames(InFile(FunctionList(t), path))
    ensures exists k :: k in t.order && FilePart(t.functions[k].functionId) == path && t.functions[k].qualifiedName == n
  {
    var fs := InFile(FunctionList(t), path);
    var i :| 0 <= i < |fs| && fs[i].qualifiedName == n;
    assert fs[i] in fs;
    var j :| 0 <= j < |t.order| && FunctionList(t)[j] == fs[i];
    assert t.order[j] in t.order;
  }

  /** Every recorded function of the file has its name listed. */
  lemma FileNameComplete(t: Tables, path: string, k: string)
    requires forall k :: k in t.order ==> k in t.functions
    requires forall f :: f in InFile(FunctionList(t), path) <==> f in FunctionList(t) && FilePart(f.functionId) == path
    requires k in t.order && FilePart(t.functions[k].functionId) == path
    ensures t.functions[k].qualifiedName in QualifiedNames(InFile(FunctionList(t), path))
  {
    var fs := InFile(FunctionList(t), path);
    var j :| 0 <= j < |t.order| && t.order[j] == k;
    assert FunctionList(t)[j] == t.functions[k];
    assert t.functions[k] in fs;
    var i :| 0 <= i < |fs| && fs[i] == t.functions[k];
    assert QualifiedNames(fs)[i] == t.functions[k].qualifiedName;
  }

  function CountInFile(t: Tables, ks: seq<string>, path: string): nat
    requires forall k :: k in ks ==> k in t.functions
  {
    if ks == [] then 0
    else (if FilePart(t.functions[ks[0]].functionId) == path then 1 else 0) + CountInFile(t, ks[1..], path)
  }

  /** A file's functionCount is the number of recorded functions whose id names that
      file: with each key listed once in insertion order, counting list entries
      counts keys. */
  lemma {:induction false} FileCountIsKeyCount(t: Tables, ks: seq<string>, path: string)
    requires forall k :: k in ks ==> k in t.functions
    requires Distinct(ks)
    ensures CountInFile(t, ks, path) == |KeysInFile(t, ks, path)|
    decreases |ks|
  {
    if ks != [] {
      FileCountIsKeyCount(t, ks[1..], path);
      KeysInFileStep(t, ks, path);
      assert ks[0] !in KeysInFile(t, ks[1..], path);
    }
  }

  ghost function KeysInFile(t: Tables, ks: seq<string>, path: string): set<string>
    requires forall k :: k in ks ==> k in t.functions
  {
    set k | k in ks && FilePart(t.functions[k].functionId) == path
  }

  lemma KeysInFileStep(t: Tables, ks: seq<string>, path: string)
    requires forall k :: k in ks ==> k in t.functions
    requires ks != []
    ensures KeysInFile(t, ks, path) ==
      (if FilePart(t.functions[ks[0]].functionId) == path then {ks[0]} else {}) + KeysInFile(t, ks[1..], path)
  {
    assert forall k :: k in ks <==> k == ks[0] || k in ks[1..];
  }

  lemma {:induction false} InFileCount(t: Tables, ks: seq<string>, path: string)
    requires forall k :: k in ks ==> k in t.functions
    ensures |InFile(ValuesAt(t, ks), path)| == CountInFile(t, ks, path)
    decreases |ks|
  {
    if ks != [] {
      assert ValuesAt(t, ks)[1..] == ValuesAt(t, ks[1..]);
      InFileCount(t, ks[1..], path);
    }
  }

  /** The functionCount of a file entry is the number of function keys whose id
      prefix before the last ":" is the file's path. */
  lemma FileSpecCount(t: Tables, os: Paths.Os, moduleBase: string, path: string)
    requires OrdersExact(t)
    ensures FileSpec(FunctionList(t), os, moduleBase, path).functionCount ==
      |set k | k in t.functions && FilePart(t.functions[k].functionId) == path|
  {
    FileListCount(t, path);
  }

  lemma FileListCount(t: Tables, path: string)
    requires OrdersExact(t)
    ensures |InFile(FunctionList(t), path)| == |set k | k in t.functions && FilePart(t.functions[k].functionId) == path|
  {
    InFileCount(t, t.order, path);
    FileCountIsKeyCount(t, t.order, path);
    assert KeysInFile(t, t.order, path) == (set k | k in t.functions && FilePart(t.functions[k].functionId) == path);
  }

  function PathsOf(files: seq<FileInfo>): seq<string> {
    seq(|files|, i requires 0 <= i < |files| => files[i].path)
  }

  lemma FilePartsMeaning(t: Tables, parts: seq<string>)
    requires forall k :: k in t.order ==> k in t.functions
    requires |parts| == |t.order|
    requires forall i :: 0 <= i < |parts| ==> parts[i] == FilePart(FunctionList(t)[i].functionId)
    ensures forall p :: p in parts <==> exists k :: k in t.order && FilePart(t.functions[k].functionId) == p
  {
    forall p ensures p in parts <==> exists k :: k in t.order && FilePart(t.functions[k].functionId) == p {
      if p in parts {
        var j :| 0 <= j < |parts| && parts[j] == p;
        FilePartOfKey(t, parts, j);
      }
      if exists k :: k in t.order && FilePart(t.functions[k].functionId) == p {
        var k :| k in t.order && FilePart(t.functions[k].functionId) == p;
        FilePartListed(t, parts, k);
      }
    }
  }

  /** Entry `j` of the file parts is the file part of the `j`-th key. */
  lemma FilePartOfKey(t: Tables, parts: seq<string>, j: int)
    requires forall k :: k in t.order ==> k in t.functions
    requires |parts| == |t.order| && 0 <= j < |parts|
    requires forall i :: 0 <= i < |parts| ==> parts[i] == FilePart(FunctionList(t)[i].functionId)
    ensures t.order[j] in t.order && parts[j] == FilePart(t.functions[t.order[j]].functionId)
  {
  }

  lemma FilePartListed(t: Tables, parts: seq<string>, k: string)
    requires forall k :: k in t.order ==> k in t.functions
    requires |parts| == |t.order|
    requires forall i :: 0 <= i < |parts| ==> parts[i] == FilePart(FunctionList(t)[i].functionId)
    requires k in t.order
    ensures FilePart(t.functions[k].functionId) in parts
  {
    var j :| 0 <= j < |t.order| && t.order[j] == k;
    FilePartOfKey(t, parts, j);
  }

  /** `files_data`: one entry per distinct file part of a function id, in sorted
      order, each built as `FileSpec` says. */
  method FilesData(t: Tables, os: Paths.Os, moduleBase: string) returns (files: seq<FileInfo>)
    requires forall k :: k in t.order ==> k in t.functions
    ensures StrictlySorted(PathsOf(files))
    ensures forall p :: p in PathsOf(files) <==> exists k :: k in t.order && FilePart(t.functions[k].functionId) == p
    ensures forall i :: 0 <= i < |files| ==> files[i] == FileSpec(FunctionList(t), os, moduleBase, files[i].path)
  {
    var list := FunctionList(t);
    var parts := seq(|list|, i requires 0 <= i < |list| => FilePart(list[i].functionId));
    var paths := SortDedup(parts);
    FilePartsMeaning(t, parts);
    files := FileEntries(paths, FileMaker(list, os, moduleBase));
  }

  /** `FileSpec` over the fixed inputs, as a function of the path. */
  function FileMaker(list: seq<FunctionInfo>, os: Paths.Os, moduleBase: string): (r: string -> FileInfo)
    ensures forall p :: r(p).path == p
  {
    p => FileSpec(list, os, moduleBase, p)
  }

  /** The loop of `files_data` over the sorted file paths; `entry` builds the
      dictionary of one file. */
  method FileEntries(paths: seq<string>, entry: string -> FileInfo) returns (files: seq<FileInfo>)
    requires forall p :: entry(p).path == p
    ensures PathsOf(files) == paths
    ensures forall j :: 0 <= j < |files| ==> files[j] == entry(files[j].path)
  {
    files := [];
    var i := 0;
    while i < |paths|
      invariant 0 <= i <= |paths|
      invariant |files| == i
      invariant forall j :: 0 <= j < i ==> files[j] == entry(paths[j])
    {
      files := files + [entry(paths[i])];
      i := i + 1;
    }
    assert PathsOf(files) == paths;
  }
}
