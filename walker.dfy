/** The two passes over the AST shared by src/parser.py, analyzer.py and
    analyzer/function_analyzer.py, as functions on the tables they fill. The first
    pass records definitions; the second records call edges. The three scripts
    differ only in how they decide that a file is in the project, in the module
    they store with a function, in whether they keep module tables, and in whether
    they record globals (src/parser.py alone does). */
module Walker {
  import opened Wrappers
  import opened Text
  import Paths
  import opened Cursors

  datatype Variant = ParserScript | AnalyzerScript | FunctionAnalyzerScript

  /** The base path is MODULE_BASE_PATH (src/parser.py, analyzer.py) or PROJECT_ROOT
      (analyzer/function_analyzer.py, where it is already absolute). */
  datatype Config = Config(variant: Variant, os: Paths.Os, base: string)

  // ------------------------------------------------------------ per-script helpers

  /** analyzer.py's `get_module_name`: like the one in src/utils.py, but without
      case normalisation, and splitting the relative path on the platform separator. */
  function AnalyzerModuleName(os: Paths.Os, filePath: string, basePath: string): (r: string)
    ensures filePath == "" ==> r == Paths.Unknown
    ensures !StartsWith(os.abspath(filePath), os.abspath(basePath)) ==> r == Paths.Unknown
    ensures r != ""
    ensures r != Paths.Unknown ==> os.sep !in r
    ensures filePath != "" && StartsWith(os.abspath(filePath), os.abspath(basePath)) ==>
      match os.relpath(os.abspath(filePath), os.abspath(basePath))
      case None => r == Paths.Unknown
      case Some(rel) =>
        (rel == [] || rel[0] == os.sep ==> r == Paths.Unknown) &&
        (rel != [] && rel[0] != os.sep ==> IsFirstSegment(r, rel, os.sep))
  {
    if filePath == "" then Paths.Unknown
    else
      var absFile := os.abspath(filePath);
      var absBase := os.abspath(basePath);
      if !StartsWith(absFile, absBase) then Paths.Unknown
      else
        match os.relpath(absFile, absBase)
        case None => Paths.Unknown
        case Some(rel) =>
          var parts := Split(rel, os.sep);
          SplitFirst(rel, os.sep);
          if parts[0] != "" then parts[0] else Paths.Unknown
  }

  /** `is_project_file(file_path)` of each script. */
  function IsProjectFile(cfg: Config, f: string): (r: bool)
    ensures cfg.variant != FunctionAnalyzerScript && f == "" ==> !r
    ensures cfg.variant == ParserScript ==>
      (r <==> f != "" && StartsWith(cfg.os.normcase(cfg.os.abspath(f)), cfg.os.normcase(cfg.os.abspath(cfg.base))))
    ensures cfg.variant == AnalyzerScript ==>
      (r <==> f != "" && StartsWith(cfg.os.abspath(f), cfg.os.abspath(cfg.base)))
    ensures cfg.variant == FunctionAnalyzerScript ==> (r <==> StartsWith(cfg.os.abspath(f), cfg.base))
  {
    match cfg.variant
    case ParserScript =>
      f != "" && StartsWith(cfg.os.normcase(cfg.os.abspath(f)), cfg.os.normcase(cfg.os.abspath(cfg.base)))
    case AnalyzerScript =>
      f != "" && StartsWith(cfg.os.abspath(f), cfg.os.abspath(cfg.base))
    case FunctionAnalyzerScript =>
      StartsWith(cfg.os.abspath(f), cfg.base)
  }

  /** The module under which the module tables file a function. */
  function TableModule(cfg: Config, f: string): string {
    if cfg.variant == ParserScript then Paths.GetModuleName(cfg.os, f, cfg.base)
    else AnalyzerModuleName(cfg.os, f, cfg.base)
  }

  /** The `moduleName` stored in a function record: the module for src/parser.py,
      the file's basename for the other two scripts. */
  function RecordModule(cfg: Config, f: string): string {
    if cfg.variant == ParserScript then Paths.GetModuleName(cfg.os, f, cfg.base)
    else Basename(f, cfg.os.seps)
  }

  // ------------------------------------------------------------------- the tables

  /** Fields only src/parser.py stores. */
  datatype ParserDetails = ParserDetails(mangledName: string, params: seq<Param>, endLine: nat)

  datatype FunctionInfo = FunctionInfo(
    functionId: string,
    functionName: string,
    qualifiedName: string,
    moduleName: string,
    details: Option<ParserDetails>,
    callersFunctionNames: seq<string>,
    calleesFunctionNames: seq<string>)

  datatype GlobalInfo = GlobalInfo(
    variableId: string, variableName: string, qualifiedName: string, moduleName: string, typeSpelling: string)

  /** The module-level dictionaries of a script. `order` and `globalOrder` are the
      insertion orders of `functions` and `globals`, which Python's dicts keep. */
  datatype Tables = Tables(
    functions: map<string, FunctionInfo>,
    order: seq<string>,
    globals: map<string, GlobalInfo>,
    globalOrder: seq<string>,
    callGraph: map<string, set<string>>,
    reverseCallGraph: map<string, set<string>>,
    moduleFunctions: map<string, seq<string>>,
    functionToModule: map<string, string>)

  const Empty: Tables := Tables(map[], [], map[], [], map[], map[], map[], map[])

  /** The insertion orders list every key exactly once. */
  ghost predicate OrdersExact(t: Tables) {
    Distinct(t.order) && (forall k :: k in t.order <==> k in t.functions) &&
    Distinct(t.globalOrder) && (forall k :: k in t.globalOrder <==> k in t.globals)
  }

  /** A function's key is filed under the module `functionToModule` names for it,
      and the module table covers exactly the recorded functions (empty for
      analyzer/function_analyzer.py, which keeps none). */
  ghost predicate ModuleTablesAgree(cfg: Config, t: Tables) {
    (forall k :: k in t.functionToModule ==>
       t.functionToModule[k] in t.moduleFunctions && k in t.moduleFunctions[t.functionToModule[k]]) &&
    (cfg.variant != FunctionAnalyzerScript ==> forall k :: k in t.functionToModule <==> k in t.functions) &&
    (cfg.variant == FunctionAnalyzerScript ==> t.functionToModule == map[] && t.moduleFunctions == map[])
  }

  /** An id `int(id.rsplit(":", 1)[1])` can read a line from. */
  predicate WellFormedId(id: string) {
    |RSplitOnce(id, ':')| == 2 && ParseInt(RSplitOnce(id, ':')[1]).Some?
  }

  /** Function ids and global keys are location ids; only src/parser.py's records
      carry the parser details. */
  ghost predicate RecordsWellFormed(cfg: Config, t: Tables) {
    (forall k :: k in t.functions ==>
       WellFormedId(t.functions[k].functionId) && (t.functions[k].details.Some? <==> cfg.variant == ParserScript)) &&
    (forall g :: g in t.globals ==> WellFormedId(g))
  }

  ghost predicate Consistent(cfg: Config, t: Tables) {
    OrdersExact(t) && ModuleTablesAgree(cfg, t) && RecordsWellFormed(cfg, t)
  }

  lemma LocationIdWellFormed(file: string, line: nat)
    ensures WellFormedId(LocationId(file, line))
  {
    LocationIdLine(file, line);
  }

  // ------------------------------------------------------------- definition pass

  predicate IsTrackedDefinition(cfg: Config, c: Cursor) {
    IsFunctionKind(c.kind) && c.isDefinition && c.decl.file.Some? && IsProjectFile(cfg, c.decl.file.value)
  }

  /** A variable whose semantic parent is the translation unit or a namespace. */
  predicate IsGlobalVar(cfg: Config, c: Cursor) {
    c.kind == VarDecl && c.decl.file.Some? && IsProjectFile(cfg, c.decl.file.value) &&
    c.decl.parents != [] && (c.decl.parents[0].kind == TranslationUnit || c.decl.parents[0].kind == Namespace)
  }

  /** The last line of a function: its extent's end line when the extent ends in the
      file the function starts in, else its start line. */
  function EndLine(c: Cursor): (r: nat)
    ensures c.endFile.None? || c.endFile != c.decl.file ==> r == c.decl.line
    ensures c.endFile.Some? && c.endFile == c.decl.file ==> r == c.endLine
  {
    if c.endFile.Some? && c.decl.file.Some? && c.endFile.value == c.decl.file.value then c.endLine
    else c.decl.line
  }

  function Appended(m: map<string, seq<string>>, k: string, x: string): map<string, seq<string>> {
    m[k := (if k in m then m[k] else []) + [x]]
  }

  /** The record `functions[key]` receives for a tracked definition. */
  function FunctionRecordOf(cfg: Config, c: Cursor): (r: FunctionInfo)
    requires c.decl.file.Some?
    ensures r.functionId == LocationId(c.decl.file.value, c.decl.line)
    ensures r.functionName == c.decl.spelling && r.qualifiedName == QualifiedName(c.decl)
    ensures r.details.Some? <==> cfg.variant == ParserScript
  {
    var file := c.decl.file.value;
    FunctionInfo(
      LocationId(file, c.decl.line), c.decl.spelling, QualifiedName(c.decl), RecordModule(cfg, file),
      if cfg.variant == ParserScript then Some(ParserDetails(c.decl.mangled, c.params, EndLine(c))) else None,
      [], [])
  }

  function RecordFunction(cfg: Config, t: Tables, c: Cursor): (r: Tables)
    requires IsTrackedDefinition(cfg, c)
    ensures r.functions == t.functions[FunctionKey(c.decl) := FunctionRecordOf(cfg, c)]
    ensures r.order == if FunctionKey(c.decl) in t.functions then t.order else t.order + [FunctionKey(c.decl)]
    ensures cfg.variant == FunctionAnalyzerScript ==>
      r.moduleFunctions == t.moduleFunctions && r.functionToModule == t.functionToModule
    ensures cfg.variant != FunctionAnalyzerScript ==>
      r.moduleFunctions == Appended(t.moduleFunctions, TableModule(cfg, c.decl.file.value), FunctionKey(c.decl)) &&
      r.functionToModule == t.functionToModule[FunctionKey(c.decl) := TableModule(cfg, c.decl.file.value)]
    ensures r.globals == t.globals && r.globalOrder == t.globalOrder
    ensures r.callGraph == t.callGraph && r.reverseCallGraph == t.reverseCallGraph
  {
    var file := c.decl.file.value;
    var key := FunctionKey(c.decl);
    var t1 := t.(functions := t.functions[key := FunctionRecordOf(cfg, c)],
                 order := if key in t.functions then t.order else t.order + [key]);
    if cfg.variant == FunctionAnalyzerScript then t1
    else
      var m := TableModule(cfg, file);
      t1.(moduleFunctions := Appended(t1.moduleFunctions, m, key),
          functionToModule := t1.functionToModule[key := m])
  }

  function RecordGlobal(cfg: Config, t: Tables, c: Cursor): (r: Tables)
    requires c.decl.file.Some?
    ensures r.functions == t.functions && r.order == t.order
    ensures r.moduleFunctions == t.moduleFunctions && r.functionToModule == t.functionToModule
    ensures r.callGraph == t.callGraph && r.reverseCallGraph == t.reverseCallGraph
    ensures r.globals.Keys == t.globals.Keys + {LocationId(c.decl.file.value, c.decl.line)}
  {
    var file := c.decl.file.value;
    var id := LocationId(file, c.decl.line);
    var info := GlobalInfo(id, c.decl.spelling, QualifiedName(c.decl), Paths.GetModuleName(cfg.os, file, cfg.base), c.typeSpelling);
    t.(globals := t.globals[id := info],
       globalOrder := if id in t.globals then t.globalOrder else t.globalOrder + [id])
  }

  /** What `visit_definitions` does at one cursor, before visiting its children. */
  function DefStep(cfg: Config, t: Tables, c: Cursor): (r: Tables)
    ensures r.callGraph == t.callGraph && r.reverseCallGraph == t.reverseCallGraph
    ensures t.functions.Keys <= r.functions.Keys
    ensures IsTrackedDefinition(cfg, c) ==>
      FunctionKey(c.decl) in r.functions && r.functions[FunctionKey(c.decl)].functionId == LocationId(c.decl.file.value, c.decl.line)
    ensures !IsTrackedDefinition(cfg, c) ==> r.functions == t.functions
    ensures cfg.variant != ParserScript ==> r.globals == t.globals
  {
    if IsTrackedDefinition(cfg, c) then RecordFunction(cfg, t, c)
    else if cfg.variant == ParserScript && IsGlobalVar(cfg, c) && c.decl.spelling != "" then RecordGlobal(cfg, t, c)
    else t
  }

  /** `visit_definitions(c)`: the cursor, then its children in order. */
  function WalkDefs(cfg: Config, t: Tables, c: Cursor): (r: Tables)
    ensures r.callGraph == t.callGraph && r.reverseCallGraph == t.reverseCallGraph
    ensures t.functions.Keys <= r.functions.Keys
    decreases c, |c.children| + 1
  {
    FoldDefs(cfg, DefStep(cfg, t, c), c, |c.children|)
  }

  /** Visits the first `n` children of `c`. */
  function FoldDefs(cfg: Config, t: Tables, c: Cursor, n: nat): (r: Tables)
    requires n <= |c.children|
    ensures r.callGraph == t.callGraph && r.reverseCallGraph == t.reverseCallGraph
    ensures t.functions.Keys <= r.functions.Keys
    decreases c, n
  {
    if n == 0 then t else WalkDefs(cfg, FoldDefs(cfg, t, c, n - 1), c.children[n - 1])
  }

  // ------------------------------------------------------------------- call pass

  predicate NameMatches(t: Tables, k: string, name: string) {
    k in t.functions && t.functions[k].functionName == name
  }

  /** The index in insertion order of the first function spelled `name`, or -1. */
  function FirstByName(t: Tables, name: string, from: nat): (i: int)
    requires from <= |t.order|
    ensures i == -1 || from <= i < |t.order|
    ensures i >= 0 ==> NameMatches(t, t.order[i], name)
    ensures forall j :: from <= j < (if i < 0 then |t.order| else i) ==> !NameMatches(t, t.order[j], name)
    decreases |t.order| - from
  {
    if from == |t.order| then -1
    else if NameMatches(t, t.order[from], name) then from
    else FirstByName(t, name, from + 1)
  }

  /** The key a call resolves to: the referenced declaration's key if it is
      tracked, else the first tracked function spelled like the call. */
  function ResolveCall(t: Tables, c: Cursor): (r: Option<string>)
    ensures r.Some? ==> r.value in t.functions
    ensures c.referenced.Some? && FunctionKey(c.referenced.value) in t.functions && FunctionKey(c.referenced.value) != "" ==>
      r == Some(FunctionKey(c.referenced.value))
    ensures (c.referenced.None? || FunctionKey(c.referenced.value) !in t.functions) ==>
      (r.None? <==> forall j :: 0 <= j < |t.order| ==> !NameMatches(t, t.order[j], c.decl.spelling))
    ensures (c.referenced.None? || FunctionKey(c.referenced.value) !in t.functions) && r.Some? ==>
      exists i :: 0 <= i < |t.order| && t.order[i] == r.value && NameMatches(t, r.value, c.decl.spelling) &&
        forall j :: 0 <= j < i ==> !NameMatches(t, t.order[j], c.decl.spelling)
  {
    if c.referenced.Some? && FunctionKey(c.referenced.value) in t.functions && FunctionKey(c.referenced.value) != "" then
      Some(FunctionKey(c.referenced.value))
    else
      var i := FirstByName(t, c.decl.spelling, 0);
      if i < 0 then None else Some(t.order[i])
  }

  function Lookup(g: map<string, set<string>>, k: string): set<string> {
    if k in g then g[k] else {}
  }

  function AddEdge(t: Tables, caller: string, callee: string): (r: Tables)
    ensures r.functions == t.functions && r.order == t.order
    ensures caller in r.callGraph && callee in r.callGraph[caller]
    ensures callee in r.reverseCallGraph && caller in r.reverseCallGraph[callee]
  {
    t.(callGraph := t.callGraph[caller := Lookup(t.callGraph, caller) + {callee}],
       reverseCallGraph := t.reverseCallGraph[callee := Lookup(t.reverseCallGraph, callee) + {caller}])
  }

  /** What `visit_calls` does at one cursor: the new tables and the enclosing
      function's key passed to its children ("" when there is none). */
  function CallStep(cfg: Config, t: Tables, c: Cursor, current: string): (r: (Tables, string))
    ensures IsTrackedDefinition(cfg, c) ==> r == (t, FunctionKey(c.decl))
    ensures !IsTrackedDefinition(cfg, c) ==> r.1 == current
    ensures c.kind != CallExpr || current == "" ==> r.0 == t
    ensures r.0 == t || exists callee :: callee in t.functions && callee != "" && r.0 == AddEdge(t, current, callee)
    ensures !IsTrackedDefinition(cfg, c) && c.kind == CallExpr && current != "" ==>
      (ResolveCall(t, c).Some? && ResolveCall(t, c).value != "" ==> r.0 == AddEdge(t, current, ResolveCall(t, c).value)) &&
      (ResolveCall(t, c).None? || ResolveCall(t, c).value == "" ==> r.0 == t)
  {
    if IsTrackedDefinition(cfg, c) then (t, FunctionKey(c.decl))
    else if c.kind == CallExpr && current != "" then
      match ResolveCall(t, c)
      case Some(k) => if k != "" && k in t.functions then (AddEdge(t, current, k), current) else (t, current)
      case None => (t, current)
    else (t, current)
  }

  /** The part of the tables the call pass never changes. */
  predicate SameDefinitions(a: Tables, b: Tables) {
    a.functions == b.functions && a.order == b.order && a.globals == b.globals && a.globalOrder == b.globalOrder &&
    a.moduleFunctions == b.moduleFunctions && a.functionToModule == b.functionToModule
  }

  /** `visit_calls(c, current)` */
  function WalkCalls(cfg: Config, t: Tables, c: Cursor, current: string): (r: Tables)
    ensures SameDefinitions(r, t)
    decreases c, |c.children| + 1
  {
    var (t1, cur) := CallStep(cfg, t, c, current);
    FoldCalls(cfg, t1, c, |c.children|, cur)
  }

  function FoldCalls(cfg: Config, t: Tables, c: Cursor, n: nat, current: string): (r: Tables)
    requires n <= |c.children|
    ensures SameDefinitions(r, t)
    decreases c, n
  {
    if n == 0 then t else WalkCalls(cfg, FoldCalls(cfg, t, c, n - 1, current), c.children[n - 1], current)
  }

  // ----------------------------------------------------------- the whole program

  /** The first pass over every translation unit, in the order the files are found. */
  function RunDefs(cfg: Config, t: Tables, units: seq<Cursor>): (r: Tables)
    ensures r.callGraph == t.callGraph && r.reverseCallGraph == t.reverseCallGraph
    ensures t.functions.Keys <= r.functions.Keys
    decreases |units|
  {
    if units == [] then t else RunDefs(cfg, WalkDefs(cfg, t, units[0]), units[1..])
  }

  /** The second pass over the same translation units. */
  function RunCalls(cfg: Config, t: Tables, units: seq<Cursor>): (r: Tables)
    ensures SameDefinitions(r, t)
    decreases |units|
  {
    if units == [] then t else RunCalls(cfg, WalkCalls(cfg, t, units[0], ""), units[1..])
  }

  function Analyse(cfg: Config, units: seq<Cursor>): Tables {
    RunCalls(cfg, RunDefs(cfg, Empty, units), units)
  }

  // -------------------------------------------------------------------- lemmas

  /** b is among a's callees exactly when a is among b's callers. */
  ghost predicate Symmetric(t: Tables) {
    (forall a, b :: a in t.callGraph && b in t.callGraph[a] ==>
       b in t.reverseCallGraph && a in t.reverseCallGraph[b]) &&
    (forall a, b :: b in t.reverseCallGraph && a in t.reverseCallGraph[b] ==>
       a in t.callGraph && b in t.callGraph[a])
  }

  /** Every key in either graph, as caller or as callee, is a recorded function. */
  ghost predicate EdgesTracked(t: Tables) {
    (forall a :: a in t.callGraph ==> a in t.functions && forall b :: b in t.callGraph[a] ==> b in t.functions) &&
    (forall b :: b in t.reverseCallGraph ==> b in t.functions && forall a :: a in t.reverseCallGraph[b] ==> a in t.functions)
  }

  lemma AddEdgeSymmetric(t: Tables, caller: string, callee: string)
    requires Symmetric(t)
    ensures Symmetric(AddEdge(t, caller, callee))
  {
  }

  lemma {:induction false} WalkCallsSymmetric(cfg: Config, t: Tables, c: Cursor, current: string)
    requires Symmetric(t)
    ensures Symmetric(WalkCalls(cfg, t, c, current))
    decreases c, |c.children| + 1
  {
    var (t1, cur) := CallStep(cfg, t, c, current);
    if t1 != t {
      var callee :| callee in t.functions && callee != "" && t1 == AddEdge(t, current, callee);
      AddEdgeSymmetric(t, current, callee);
    }
    FoldCallsSymmetric(cfg, t1, c, |c.children|, cur);
  }

  lemma {:induction false} FoldCallsSymmetric(cfg: Config, t: Tables, c: Cursor, n: nat, current: string)
    requires n <= |c.children|
    requires Symmetric(t)
    ensures Symmetric(FoldCalls(cfg, t, c, n, current))
    decreases c, n
  {
    if n > 0 {
      FoldCallsSymmetric(cfg, t, c, n - 1, current);
      WalkCallsSymmetric(cfg, FoldCalls(cfg, t, c, n - 1, current), c.children[n - 1], current);
    }
  }

  lemma {:induction false} RunCallsSymmetric(cfg: Config, t: Tables, units: seq<Cursor>)
    requires Symmetric(t)
    ensures Symmetric(RunCalls(cfg, t, units))
    decreases |units|
  {
    if units != [] {
      WalkCallsSymmetric(cfg, t, units[0], "");
      RunCallsSymmetric(cfg, WalkCalls(cfg, t, units[0], ""), units[1..]);
    }
  }

  /** Call-graph symmetry: after both passes, b is in `call_graph[a]` exactly when a
      is in `reverse_call_graph[b]`. */
  lemma AnalyseSymmetric(cfg: Config, units: seq<Cursor>)
    ensures Symmetric(Analyse(cfg, units))
  {
    var defs := RunDefs(cfg, Empty, units);
    assert Symmetric(defs);
    RunCallsSymmetric(cfg, defs, units);
  }

  /** Every tracked definition in the tree has its key among `keys`. */
  ghost predicate DefsIn(cfg: Config, keys: set<string>, c: Cursor)
    decreases c
  {
    (IsTrackedDefinition(cfg, c) ==> FunctionKey(c.decl) in keys) &&
    forall i :: 0 <= i < |c.children| ==> DefsIn(cfg, keys, c.children[i])
  }

  lemma {:induction false} DefsInMonotone(cfg: Config, k1: set<string>, k2: set<string>, c: Cursor)
    requires k1 <= k2 && DefsIn(cfg, k1, c)
    ensures DefsIn(cfg, k2, c)
    decreases c
  {
    forall i | 0 <= i < |c.children| ensures DefsIn(cfg, k2, c.children[i]) {
      DefsInMonotone(cfg, k1, k2, c.children[i]);
    }
  }

  lemma {:induction false} WalkDefsRecords(cfg: Config, t: Tables, c: Cursor)
    ensures DefsIn(cfg, WalkDefs(cfg, t, c).functions.Keys, c)
    decreases c, |c.children| + 1
  {
    var t1 := DefStep(cfg, t, c);
    FoldDefsRecords(cfg, t1, c, |c.children|);
  }

  lemma {:induction false} FoldDefsRecords(cfg: Config, t: Tables, c: Cursor, n: nat)
    requires n <= |c.children|
    ensures forall i :: 0 <= i < n ==> DefsIn(cfg, FoldDefs(cfg, t, c, n).functions.Keys, c.children[i])
    decreases c, n
  {
    if n > 0 {
      var before := FoldDefs(cfg, t, c, n - 1);
      var after := FoldDefs(cfg, t, c, n);
      FoldDefsRecords(cfg, t, c, n - 1);
      WalkDefsRecords(cfg, before, c.children[n - 1]);
      forall i | 0 <= i < n - 1 ensures DefsIn(cfg, after.functions.Keys, c.children[i]) {
        DefsInMonotone(cfg, before.functions.Keys, after.functions.Keys, c.children[i]);
      }
    }
  }

  lemma {:induction false} RunDefsRecords(cfg: Config, t: Tables, units: seq<Cursor>)
    ensures forall i :: 0 <= i < |units| ==> DefsIn(cfg, RunDefs(cfg, t, units).functions.Keys, units[i])
    decreases |units|
  {
    if units != [] {
      var t1 := WalkDefs(cfg, t, units[0]);
      var r := RunDefs(cfg, t, units);
      WalkDefsRecords(cfg, t, units[0]);
      DefsInMonotone(cfg, t1.functions.Keys, r.functions.Keys, units[0]);
      RunDefsRecords(cfg, t1, units[1..]);
      assert forall i :: 1 <= i < |units| ==> units[i] == units[1..][i - 1];
    }
  }

  lemma AddEdgeTracked(t: Tables, caller: string, callee: string)
    requires EdgesTracked(t) && caller in t.functions && callee in t.functions
    ensures EdgesTracked(AddEdge(t, caller, callee))
  {
  }

  lemma {:induction false} WalkCallsTracked(cfg: Config, t: Tables, c: Cursor, current: string)
    requires EdgesTracked(t)
    requires current == "" || current in t.functions
    requires DefsIn(cfg, t.functions.Keys, c)
    ensures EdgesTracked(WalkCalls(cfg, t, c, current))
    decreases c, |c.children| + 1
  {
    var (t1, cur) := CallStep(cfg, t, c, current);
    if t1 != t {
      var callee :| callee in t.functions && callee != "" && t1 == AddEdge(t, current, callee);
      AddEdgeTracked(t, current, callee);
    }
    FoldCallsTracked(cfg, t1, c, |c.children|, cur);
  }

  lemma {:induction false} FoldCallsTracked(cfg: Config, t: Tables, c: Cursor, n: nat, current: string)
    requires n <= |c.children|
    requires EdgesTracked(t)
    requires current == "" || current in t.functions
    requires forall i :: 0 <= i < n ==> DefsIn(cfg, t.functions.Keys, c.children[i])
    ensures EdgesTracked(FoldCalls(cfg, t, c, n, current))
    decreases c, n
  {
    if n > 0 {
      FoldCallsTracked(cfg, t, c, n - 1, current);
      WalkCallsTracked(cfg, FoldCalls(cfg, t, c, n - 1, current), c.children[n - 1], current);
    }
  }

  lemma {:induction false} RunCallsTracked(cfg: Config, t: Tables, units: seq<Cursor>)
    requires EdgesTracked(t)
    requires forall i :: 0 <= i < |units| ==> DefsIn(cfg, t.functions.Keys, units[i])
    ensures EdgesTracked(RunCalls(cfg, t, units))
    decreases |units|
  {
    if units != [] {
      WalkCallsTracked(cfg, t, units[0], "");
      RunCallsTracked(cfg, WalkCalls(cfg, t, units[0], ""), units[1..]);
    }
  }

  /** Only tracked keys appear: every caller and callee in either graph is a key of
      `functions`. Callers are tracked because the first pass recorded every
      definition the second pass can stand in. */
  lemma AnalyseTracked(cfg: Config, units: seq<Cursor>)
    ensures EdgesTracked(Analyse(cfg, units))
  {
    var defs := RunDefs(cfg, Empty, units);
    RunDefsRecords(cfg, Empty, units);
    RunCallsTracked(cfg, defs, units);
  }

  lemma AppendKeepsDistinct(s: seq<string>, k: string)
    requires Distinct(s) && k !in s
    ensures Distinct(s + [k])
  {
  }

  lemma RecordFunctionOrders(cfg: Config, t: Tables, c: Cursor)
    requires IsTrackedDefinition(cfg, c)
    requires OrdersExact(t)
    ensures OrdersExact(RecordFunction(cfg, t, c))
  {
    var key := FunctionKey(c.decl);
    var r := RecordFunction(cfg, t, c);
    InsertKeepsOrder(t.order, t.functions, key, r.functions[key], r.order);
  }

  /** Storing a key and appending it to the order only when it is new keeps
      an insertion order exact. */
  lemma InsertKeepsOrder<V>(order: seq<string>, m: map<string, V>, key: string, v: V, o: seq<string>)
    requires Distinct(order) && forall k :: k in order <==> k in m
    requires o == if key in m then order else order + [key]
    ensures Distinct(o) && forall k :: k in o <==> k in m[key := v]
  {
    if key !in m {
      AppendKeepsDistinct(order, key);
    }
  }

  lemma RecordFunctionModules(cfg: Config, t: Tables, c: Cursor)
    requires IsTrackedDefinition(cfg, c)
    requires ModuleTablesAgree(cfg, t)
    ensures ModuleTablesAgree(cfg, RecordFunction(cfg, t, c))
  {
    var key := FunctionKey(c.decl);
    var r := RecordFunction(cfg, t, c);
    if cfg.variant != FunctionAnalyzerScript {
      var m := TableModule(cfg, c.decl.file.value);
      assert r.functionToModule == t.functionToModule[key := m];
      assert r.moduleFunctions == Appended(t.moduleFunctions, m, key);
      AppendedFiles(t.functionToModule, t.moduleFunctions, key, m);
    }
  }

  /** Filing a key under a module keeps every filed key findable in its module's list. */
  lemma AppendedFiles(f2m: map<string, string>, mf: map<string, seq<string>>, key: string, m: string)
    requires forall k :: k in f2m ==> f2m[k] in mf && k in mf[f2m[k]]
    ensures var f2m', mf' := f2m[key := m], Appended(mf, m, key);
      forall k :: k in f2m' ==> f2m'[k] in mf' && k in mf'[f2m'[k]]
  {
    var f2m', mf' := f2m[key := m], Appended(mf, m, key);
    forall k | k in f2m'
      ensures f2m'[k] in mf' && k in mf'[f2m'[k]]
    {
      if k != key {
        var mk := f2m[k];
        assert k in mf[mk];
        assert mk == m ==> mf'[mk] == mf[mk] + [key];
      }
    }
  }

  lemma RecordFunctionConsistent(cfg: Config, t: Tables, c: Cursor)
    requires IsTrackedDefinition(cfg, c)
    requires Consistent(cfg, t)
    ensures Consistent(cfg, RecordFunction(cfg, t, c))
  {
    RecordFunctionOrders(cfg, t, c);
    RecordFunctionModules(cfg, t, c);
    RecordFunctionWellFormed(cfg, t, c);
  }

  lemma RecordFunctionWellFormed(cfg: Config, t: Tables, c: Cursor)
    requires IsTrackedDefinition(cfg, c)
    requires RecordsWellFormed(cfg, t)
    ensures RecordsWellFormed(cfg, RecordFunction(cfg, t, c))
  {
    LocationIdWellFormed(c.decl.file.value, c.decl.line);
    var r := RecordFunction(cfg, t, c);
    var key := FunctionKey(c.decl);
    forall k | k in r.functions
      ensures WellFormedId(r.functions[k].functionId) && (r.functions[k].details.Some? <==> cfg.variant == ParserScript)
    {
      if k != key {
        assert r.functions[k] == t.functions[k];
      }
    }
  }

  lemma RecordGlobalConsistent(cfg: Config, t: Tables, c: Cursor)
    requires c.decl.file.Some?
    requires Consistent(cfg, t)
    ensures Consistent(cfg, RecordGlobal(cfg, t, c))
  {
    var id := LocationId(c.decl.file.value, c.decl.line);
    var r := RecordGlobal(cfg, t, c);
    LocationIdWellFormed(c.decl.file.value, c.decl.line);
    assert OrdersExact(r) by {
      if id !in t.globals {
        AppendKeepsDistinct(t.globalOrder, id);
      }
    }
    assert ModuleTablesAgree(cfg, r);
    assert RecordsWellFormed(cfg, r) by {
      forall k | k in r.functions
        ensures WellFormedId(r.functions[k].functionId) && (r.functions[k].details.Some? <==> cfg.variant == ParserScript)
      {
        assert r.functions[k] == t.functions[k];
      }
    }
  }

  lemma DefStepConsistent(cfg: Config, t: Tables, c: Cursor)
    requires Consistent(cfg, t)
    ensures Consistent(cfg, DefStep(cfg, t, c))
  {
    if IsTrackedDefinition(cfg, c) {
      RecordFunctionConsistent(cfg, t, c);
    } else if cfg.variant == ParserScript && IsGlobalVar(cfg, c) && c.decl.spelling != "" {
      RecordGlobalConsistent(cfg, t, c);
    }
  }

  lemma {:induction false} WalkDefsConsistent(cfg: Config, t: Tables, c: Cursor)
    requires Consistent(cfg, t)
    ensures Consistent(cfg, WalkDefs(cfg, t, c))
    decreases c, |c.children| + 1
  {
    DefStepConsistent(cfg, t, c);
    FoldDefsConsistent(cfg, DefStep(cfg, t, c), c, |c.children|);
  }

  lemma {:induction false} FoldDefsConsistent(cfg: Config, t: Tables, c: Cursor, n: nat)
    requires n <= |c.children|
    requires Consistent(cfg, t)
    ensures Consistent(cfg, FoldDefs(cfg, t, c, n))
    decreases c, n
  {
    if n > 0 {
      FoldDefsConsistent(cfg, t, c, n - 1);
      WalkDefsConsistent(cfg, FoldDefs(cfg, t, c, n - 1), c.children[n - 1]);
    }
  }

  lemma {:induction false} RunDefsConsistent(cfg: Config, t: Tables, units: seq<Cursor>)
    requires Consistent(cfg, t)
    ensures Consistent(cfg, RunDefs(cfg, t, units))
    decreases |units|
  {
    if units != [] {
      WalkDefsConsistent(cfg, t, units[0]);
      RunDefsConsistent(cfg, WalkDefs(cfg, t, units[0]), units[1..]);
    }
  }

  /** After both passes the insertion orders list each key once, each recorded
      function is filed under the module `function_to_module` gives it, and every id
      carries a line after its last colon. */
  lemma AnalyseConsistent(cfg: Config, units: seq<Cursor>)
    ensures Consistent(cfg, Analyse(cfg, units))
  {
    RunDefsConsistent(cfg, Empty, units);
  }

  /** A global is keyed by its location: visiting its declaration again (from another
      translation unit including the same header) overwrites the entry. */
  lemma GlobalRevisitOverwrites(cfg: Config, t: Tables, c: Cursor)
    requires cfg.variant == ParserScript && !IsTrackedDefinition(cfg, c)
    requires IsGlobalVar(cfg, c) && c.decl.spelling != ""
    ensures DefStep(cfg, DefStep(cfg, t, c), c) == DefStep(cfg, t, c)
  {
  }

  /** A function definition visited twice keeps one entry in `functions`, but its key
      is appended to its module's list a second time. */
  lemma FunctionRevisitRepeatsInModule(cfg: Config, t: Tables, c: Cursor)
    requires cfg.variant != FunctionAnalyzerScript && IsTrackedDefinition(cfg, c)
    ensures var once := DefStep(cfg, t, c);
      var twice := DefStep(cfg, once, c);
      var m := TableModule(cfg, c.decl.file.value);
      twice.functions == once.functions && twice.order == once.order &&
      m in once.moduleFunctions && twice.moduleFunctions[m] == once.moduleFunctions[m] + [FunctionKey(c.decl)]
  {
    var key := FunctionKey(c.decl);
    var m := TableModule(cfg, c.decl.file.value);
    var once := RecordFunction(cfg, t, c);
    var twice := RecordFunction(cfg, once, c);
    assert DefStep(cfg, t, c) == once;
    assert DefStep(cfg, once, c) == twice;
    assert key in once.functions;
    assert once.moduleFunctions == Appended(t.moduleFunctions, m, key);
    assert twice.moduleFunctions == Appended(once.moduleFunctions, m, key);
  }
}
