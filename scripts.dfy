/** The analysers as the scripts run them: the module-level dictionaries are the
    fields of an `Analysis` object, the two visitors are recursive methods that
    update them in place, and `build_metadata` (src/parser.py) turns them into the
    id-keyed output tables. */
module Scripts {
  import opened Wrappers
  import opened Text
  import Paths
  import opened Cursors
  import opened Walker

  /** One function of metadata.json's "functions" table. */
  datatype FunctionEntry = FunctionEntry(
    name: string, qualifiedName: string, file: string, line: int, endLine: int, moduleName: string,
    params: seq<Param>, callersFunctionNames: seq<string>, calleesFunctionNames: seq<string>)

  /** One variable of metadata.json's "globalVariables" table. */
  datatype GlobalEntry = GlobalEntry(
    name: string, qualifiedName: string, file: string, line: int, moduleName: string, typeSpelling: string)

  /** A list of qualified names is the names of exactly the given keys that are
      recorded functions, each once, in some order (Python iterates a set). */
  ghost predicate NamesOfKeys(names: seq<string>, keys: set<string>, fns: map<string, FunctionInfo>) {
    exists picked: seq<string> ::
      Distinct(picked) && (forall k :: k in picked <==> k in keys && k in fns) &&
      |names| == |picked| && forall i :: 0 <= i < |picked| ==> names[i] == fns[picked[i]].qualifiedName
  }

  /** The file part of an id, relative to the base with '/' separators; the id itself
      (with '/' separators) where `relpath` raises. */
  function RelativeFile(os: Paths.Os, base: string, file: string): string {
    match os.relpath(file, base)
    case Some(rel) => ReplaceChar(rel, '\\', '/')
    case None => ReplaceChar(file, '\\', '/')
  }

  /** `f"{rel_file}:{id.rsplit(':', 1)[1]}"`. Every id the walk produces has a colon
      (RecordsWellFormed), so the one-part case does not arise. */
  function OutputId(os: Paths.Os, base: string, id: string): string {
    var parts := RSplitOnce(id, ':');
    if |parts| == 2 then RelativeFile(os, base, parts[0]) + ":" + parts[1]
    else RelativeFile(os, base, parts[0])
  }

  /** `int(id.rsplit(":", 1)[1])`, for a well-formed id. */
  function IdLine(id: string): int
    requires WellFormedId(id)
  {
    ParseInt(RSplitOnce(id, ':')[1]).value
  }

  /** The output id keeps the line text: reading the line back from it gives the
      line of the source id, and for a location id that is the location's line. */
  lemma OutputIdLine(os: Paths.Os, base: string, file: string, line: nat)
    ensures WellFormedId(OutputId(os, base, LocationId(file, line)))
    ensures IdLine(OutputId(os, base, LocationId(file, line))) == line
    ensures OutputId(os, base, LocationId(file, line)) == LocationId(RelativeFile(os, base, file), line)
  {
    LocationIdLine(file, line);
    LocationIdLine(RelativeFile(os, base, file), line);
    assert OutputId(os, base, LocationId(file, line)) == LocationId(RelativeFile(os, base, file), line);
  }

  /** The key that holds the last entry written under `id` by a loop over `keys`. */
  ghost predicate LastWritten<V>(keys: seq<string>, src: map<string, V>, newKey: V -> string, id: string, i: int)
    requires forall k :: k in keys ==> k in src
  {
    0 <= i < |keys| && newKey(src[keys[i]]) == id &&
    forall j :: i < j < |keys| ==> newKey(src[keys[j]]) != id
  }

  /** What the loop has built after the first `n` keys. */
  ghost predicate RekeyedUpTo<V, W>(keys: seq<string>, src: map<string, V>, newKey: V -> string, conv: V -> W,
                                    n: int, out: map<string, W>)
    requires 0 <= n <= |keys| && forall k :: k in keys ==> k in src
  {
    (forall j :: 0 <= j < n ==> newKey(src[keys[j]]) in out) &&
    forall id :: id in out ==>
      exists i :: LastWritten(keys[..n], src, newKey, id, i) && out[id] == conv(src[keys[i]])
  }

  /** One iteration of the loop keeps RekeyedUpTo. */
  lemma RekeyStep<V, W>(keys: seq<string>, src: map<string, V>, newKey: V -> string, conv: V -> W,
                        n: int, before: map<string, W>)
    requires 0 <= n < |keys| && forall k :: k in keys ==> k in src
    requires RekeyedUpTo(keys, src, newKey, conv, n, before)
    ensures RekeyedUpTo(keys, src, newKey, conv, n + 1,
                        before[newKey(src[keys[n]]) := conv(src[keys[n]])])
  {
    var nk := newKey(src[keys[n]]);
    var out := before[nk := conv(src[keys[n]])];
    forall id | id in out
      ensures exists i :: LastWritten(keys[..n + 1], src, newKey, id, i) && out[id] == conv(src[keys[i]])
    {
      if id == nk {
        assert LastWritten(keys[..n + 1], src, newKey, id, n);
      } else {
        var i :| LastWritten(keys[..n], src, newKey, id, i) && before[id] == conv(src[keys[i]]);
        assert LastWritten(keys[..n + 1], src, newKey, id, i);
      }
    }
  }

  /** A loop that stores `conv(src[k])` under `newKey(src[k])` for each key in turn:
      the result has an entry for every key, and when two keys map to the same new
      key the later one's entry is the one kept. */
  method Rekey<V, W>(keys: seq<string>, src: map<string, V>, newKey: V -> string, conv: V -> W)
    returns (out: map<string, W>)
    requires forall k :: k in keys ==> k in src
    ensures forall k :: k in keys ==> newKey(src[k]) in out
    ensures forall id :: id in out ==>
      exists i :: LastWritten(keys, src, newKey, id, i) && out[id] == conv(src[keys[i]])
  {
    out := map[];
    var n := 0;
    while n < |keys|
      invariant 0 <= n <= |keys|
      invariant RekeyedUpTo(keys, src, newKey, conv, n, out)
    {
      RekeyStep(keys, src, newKey, conv, n, out);
      var v := src[keys[n]];
      out := out[newKey(v) := conv(v)];
      n := n + 1;
    }
    assert keys[..n] == keys;
    forall k | k in keys
      ensures newKey(src[k]) in out
    {
      var j :| 0 <= j < |keys| && keys[j] == k;
    }
    forall id | id in out
      ensures exists i :: LastWritten(keys, src, newKey, id, i) && out[id] == conv(src[keys[i]])
    {
      var i :| LastWritten(keys[..n], src, newKey, id, i) && out[id] == conv(src[keys[i]]);
      assert LastWritten(keys, src, newKey, id, i);
    }
  }

  class Analysis {
    const cfg: Config
    var functions: map<string, FunctionInfo>
    var order: seq<string>
    var globals: map<string, GlobalInfo>
    var globalOrder: seq<string>
    var callGraph: map<string, set<string>>
    var reverseCallGraph: map<string, set<string>>
    var moduleFunctions: map<string, seq<string>>
    var functionToModule: map<string, string>

    function Snapshot(): Tables
      reads this
    {
      Tables(functions, order, globals, globalOrder, callGraph, reverseCallGraph, moduleFunctions, functionToModule)
    }

    ghost predicate Valid()
      reads this
    {
      Consistent(cfg, Snapshot())
    }

    constructor (cfg: Config)
      ensures this.cfg == cfg && Snapshot() == Empty && Valid()
    {
      this.cfg := cfg;
      functions := map[];
      order := [];
      globals := map[];
      globalOrder := [];
      callGraph := map[];
      reverseCallGraph := map[];
      moduleFunctions := map[];
      functionToModule := map[];
    }

    /** The body of `visit_definitions` before the recursion. */
    method RecordDefinition(c: Cursor)
      modifies this
      ensures Snapshot() == DefStep(cfg, old(Snapshot()), c)
    {
      if IsTrackedDefinition(cfg, c) {
        RecordFunctionAt(c);
      } else if cfg.variant == ParserScript && IsGlobalVar(cfg, c) && c.decl.spelling != "" {
        RecordGlobalAt(c);
      }
    }

    method RecordFunctionAt(c: Cursor)
      requires IsTrackedDefinition(cfg, c)
      modifies this
      ensures Snapshot() == RecordFunction(cfg, old(Snapshot()), c)
    {
      var file := c.decl.file.value;
      var key := FunctionKey(c.decl);
      var qualified := GetQualifiedName(c.decl);
      var details := if cfg.variant == ParserScript then Some(ParserDetails(c.decl.mangled, c.params, EndLine(c))) else None;
      var info := FunctionInfo(LocationId(file, c.decl.line), c.decl.spelling, qualified, RecordModule(cfg, file), details, [], []);
      assert info == FunctionRecordOf(cfg, c);
      StoreFunction(key, info);
      if cfg.variant != FunctionAnalyzerScript {
        FileUnderModule(key, TableModule(cfg, file));
      }
    }

    /** `functions[key] = info`, appending the key to the order when it is new. */
    method StoreFunction(key: string, info: FunctionInfo)
      modifies this
      ensures Snapshot() == old(Snapshot()).(functions := old(functions)[key := info],
                                             order := if key in old(functions) then old(order) else old(order) + [key])
    {
      if key !in functions {
        order := order + [key];
      }
      functions := functions[key := info];
    }

    /** `module_functions[m].append(key)` and `function_to_module[key] = m`. */
    method FileUnderModule(key: string, m: string)
      modifies this
      ensures Snapshot() == old(Snapshot()).(moduleFunctions := Appended(old(moduleFunctions), m, key),
                                             functionToModule := old(functionToModule)[key := m])
    {
      var listed := if m in moduleFunctions then moduleFunctions[m] else [];
      moduleFunctions := moduleFunctions[m := listed + [key]];
      functionToModule := functionToModule[key := m];
    }

    method RecordGlobalAt(c: Cursor)
      requires c.decl.file.Some?
      modifies this
      ensures Snapshot() == RecordGlobal(cfg, old(Snapshot()), c)
    {
      var file := c.decl.file.value;
      var id := LocationId(file, c.decl.line);
      var qualified := GetQualifiedName(c.decl);
      if id !in globals {
        globalOrder := globalOrder + [id];
      }
      globals := globals[id := GlobalInfo(id, c.decl.spelling, qualified, Paths.GetModuleName(cfg.os, file, cfg.base), c.typeSpelling)];
    }

    /** `visit_definitions(cursor)`; WalkDefsConsistent shows it keeps Valid(). */
    method VisitDefinitions(c: Cursor)
      modifies this
      ensures Snapshot() == WalkDefs(cfg, old(Snapshot()), c)
      decreases c
    {
      RecordDefinition(c);
      ghost var start := Snapshot();
      var i := 0;
      while i < |c.children|
        invariant 0 <= i <= |c.children|
        invariant Snapshot() == FoldDefs(cfg, start, c, i)
      {
        VisitDefinitions(c.children[i]);
        i := i + 1;
      }
    }

    /** The body of `visit_calls` before the recursion; returns the key passed on to
        the children. */
    method RecordCall(c: Cursor, current: string) returns (next: string)
      modifies this
      ensures (Snapshot(), next) == CallStep(cfg, old(Snapshot()), c, current)
    {
      next := current;
      if IsTrackedDefinition(cfg, c) {
        next := FunctionKey(c.decl);
      } else if c.kind == CallExpr && current != "" {
        var called := ResolveCallAt(c);
        if called.Some? && called.value != "" && called.value in functions {
          AddEdgeAt(current, called.value);
        }
      }
    }

    /** The callee lookup of `visit_calls`: the referenced declaration's key when it
        is recorded, else the first recorded function with the call's spelling. */
    method ResolveCallAt(c: Cursor) returns (called: Option<string>)
      ensures called == ResolveCall(Snapshot(), c)
    {
      called := None;
      if c.referenced.Some? {
        var k := FunctionKey(c.referenced.value);
        if k in functions {
          called := Some(k);
        }
      }
      if called.None? || called.value == "" {
        called := FindByName(c.decl.spelling);
      }
    }

    /** The scan of the insertion order for a function spelled `name`. */
    method FindByName(name: string) returns (called: Option<string>)
      ensures var i := FirstByName(Snapshot(), name, 0); called == if i < 0 then None else Some(order[i])
    {
      called := None;
      var j := 0;
      while j < |order|
        invariant 0 <= j <= |order|
        invariant forall i :: 0 <= i < j ==> !NameMatches(Snapshot(), order[i], name)
      {
        if order[j] in functions && functions[order[j]].functionName == name {
          assert FirstByName(Snapshot(), name, 0) == j;
          return Some(order[j]);
        }
        j := j + 1;
      }
    }

    /** Adds `callee` to `call_graph[caller]` and `caller` to
        `reverse_call_graph[callee]`. */
    method AddEdgeAt(caller: string, callee: string)
      modifies this
      ensures Snapshot() == AddEdge(old(Snapshot()), caller, callee)
    {
      callGraph := callGraph[caller := (if caller in callGraph then callGraph[caller] else {}) + {callee}];
      reverseCallGraph := reverseCallGraph[callee := (if callee in reverseCallGraph then reverseCallGraph[callee] else {}) + {caller}];
    }

    /** `visit_calls(cursor, current_key)` */
    method VisitCalls(c: Cursor, current: string)
      modifies this
      ensures Snapshot() == WalkCalls(cfg, old(Snapshot()), c, current)
      decreases c
    {
      var next := RecordCall(c, current);
      ghost var start := Snapshot();
      var i := 0;
      while i < |c.children|
        invariant 0 <= i <= |c.children|
        invariant Snapshot() == FoldCalls(cfg, start, c, i, next)
      {
        VisitCalls(c.children[i], next);
        i := i + 1;
      }
    }

    /** Both passes over the translation units, in the order the files are found. */
    method Run(units: seq<Cursor>)
      requires Valid() && Snapshot() == Empty
      modifies this
      ensures Snapshot() == Analyse(cfg, units)
      ensures Valid() && Symmetric(Snapshot()) && EdgesTracked(Snapshot())
    {
      var i := 0;
      while i < |units|
        invariant 0 <= i <= |units|
        invariant Valid()
        invariant RunDefs(cfg, Snapshot(), units[i..]) == RunDefs(cfg, Empty, units)
      {
        ghost var before := Snapshot();
        VisitDefinitions(units[i]);
        WalkDefsConsistent(cfg, before, units[i]);
        assert units[i..][1..] == units[i + 1..];
        i := i + 1;
      }
      ghost var defs := Snapshot();
      assert defs == RunDefs(cfg, Empty, units);
      i := 0;
      while i < |units|
        invariant 0 <= i <= |units|
        invariant SameDefinitions(Snapshot(), defs)
        invariant RunCalls(cfg, Snapshot(), units[i..]) == Analyse(cfg, units)
      {
        VisitCalls(units[i], "");
        assert units[i..][1..] == units[i + 1..];
        i := i + 1;
      }
      AnalyseConsistent(cfg, units);
      AnalyseSymmetric(cfg, units);
      AnalyseTracked(cfg, units);
    }

    /** The qualified names of the given keys that are recorded functions, visiting
        the set in an unspecified order. */
    method NamesOf(keys: set<string>) returns (names: seq<string>)
      ensures NamesOfKeys(names, keys, functions)
      ensures forall n :: n in names ==> exists k :: k in keys && k in functions && functions[k].qualifiedName == n
    {
      names := [];
      ghost var picked: seq<string> := [];
      var rest := keys;
      while rest != {}
        invariant rest <= keys
        invariant Distinct(picked)
        invariant forall k :: k in picked <==> k in keys - rest && k in functions
        invariant |names| == |picked| && forall i :: 0 <= i < |picked| ==> names[i] == functions[picked[i]].qualifiedName
        decreases |rest|
      {
        var k :| k in rest;
        rest := rest - {k};
        if k in functions {
          names := names + [functions[k].qualifiedName];
          picked := picked + [k];
        }
      }
      forall n | n in names
        ensures exists k :: k in keys && k in functions && functions[k].qualifiedName == n
      {
        var i :| 0 <= i < |names| && names[i] == n;
        assert picked[i] in picked;
      }
    }

    /** The loop that fills every function's callersFunctionNames and
        calleesFunctionNames from the two graphs (src/parser.py's build_metadata,
        analyzer.py and analyzer/function_analyzer.py alike). */
    method PopulateRelationships()
      requires Valid()
      modifies this
      ensures Valid()
      ensures Snapshot() == old(Snapshot()).(functions := functions)
      ensures NamesOnlyDiffer(functions, old(functions))
      ensures forall k :: k in functions ==>
        NamesFilled(functions[k], Lookup(reverseCallGraph, k), Lookup(callGraph, k), old(functions))
    {
      ghost var t0 := Snapshot();
      assert OrdersExact(t0);
      FillAll();
      FilledEverywhere(functions, order, callGraph, reverseCallGraph, t0.functions);
      ConsistentNamesOnly(cfg, t0, functions);
      assert Snapshot() == t0.(functions := functions);
    }

    /** The loop over the keys in insertion order. */
    method FillAll()
      requires Distinct(order) && forall k :: k in order <==> k in functions
      modifies this
      ensures Snapshot() == old(Snapshot()).(functions := functions)
      ensures NamesOnlyDiffer(functions, old(functions))
      ensures FilledUpTo(functions, order, callGraph, reverseCallGraph, old(functions), |order|)
    {
      ghost var original := functions;
      var i := 0;
      while i < |order|
        invariant 0 <= i <= |order|
        invariant Snapshot() == old(Snapshot()).(functions := functions)
        invariant NamesOnlyDiffer(functions, original)
        invariant FilledUpTo(functions, order, callGraph, reverseCallGraph, original, i)
      {
        var k := order[i];
        ghost var before := functions;
        FillNames(k, original);
        FilledStep(before, order, callGraph, reverseCallGraph, original, i, functions[k]);
        i := i + 1;
      }
    }

    /** One iteration: the name lists of the function keyed `k`. */
    method FillNames(k: string, ghost original: map<string, FunctionInfo>)
      requires k in functions && NamesOnlyDiffer(functions, original)
      modifies this
      ensures Snapshot() == old(Snapshot()).(functions := functions)
      ensures order == old(order) && callGraph == old(callGraph) && reverseCallGraph == old(reverseCallGraph)
      ensures k in functions && functions == old(functions)[k := functions[k]]
      ensures NamesOnlyDiffer(functions, original)
      ensures NamesFilled(functions[k], Lookup(reverseCallGraph, k), Lookup(callGraph, k), original)
    {
      var callers := NamesOf(Lookup(reverseCallGraph, k));
      var callees := NamesOf(Lookup(callGraph, k));
      NamesOfKeysSameNames(callers, Lookup(reverseCallGraph, k), functions, original);
      NamesOfKeysSameNames(callees, Lookup(callGraph, k), functions, original);
      functions := functions[k := functions[k].(callersFunctionNames := callers, calleesFunctionNames := callees)];
      assert WithoutNames(functions[k]) == WithoutNames(old(functions)[k]);
    }

    /** `build_metadata()`: the relationships, then the id-keyed output tables. */
    method BuildMetadata() returns (fns: map<string, FunctionEntry>, vars: map<string, GlobalEntry>)
      requires Valid() && cfg.variant == ParserScript
      modifies this
      ensures Valid()
      ensures forall k :: k in functions ==>
        NamesFilled(functions[k], Lookup(reverseCallGraph, k), Lookup(callGraph, k), old(functions))
      ensures forall k :: k in order ==> OutputId(cfg.os, cfg.os.abspath(cfg.base), functions[k].functionId) in fns
      ensures forall g :: g in globalOrder ==> OutputId(cfg.os, cfg.os.abspath(cfg.base), globals[g].variableId) in vars
      ensures forall id :: id in fns ==> exists i ::
        LastWritten(order, functions, (f: FunctionInfo) => OutputId(cfg.os, cfg.os.abspath(cfg.base), f.functionId), id, i) &&
        fns[id] == FunctionEntryOf(cfg.os, cfg.os.abspath(cfg.base), functions[order[i]])
      ensures forall id :: id in vars ==> exists i ::
        LastWritten(globalOrder, globals, (g: GlobalInfo) => OutputId(cfg.os, cfg.os.abspath(cfg.base), g.variableId), id, i) &&
        vars[id] == GlobalEntryOf(cfg.os, cfg.os.abspath(cfg.base), globals[globalOrder[i]])
    {
      PopulateRelationships();
      fns, vars := ExportMetadata(cfg.os.abspath(cfg.base));
    }

    /** `build_metadata()` after the relationships are filled: the id-keyed output
        tables of src/parser.py. */
    method ExportMetadata(base: string) returns (fns: map<string, FunctionEntry>, vars: map<string, GlobalEntry>)
      requires Valid() && cfg.variant == ParserScript
      ensures forall k :: k in order ==> OutputId(cfg.os, base, functions[k].functionId) in fns
      ensures forall id :: id in fns ==> exists i ::
        LastWritten(order, functions, (f: FunctionInfo) => OutputId(cfg.os, base, f.functionId), id, i) &&
        fns[id] == FunctionEntryOf(cfg.os, base, functions[order[i]])
      ensures forall g :: g in globalOrder ==> OutputId(cfg.os, base, globals[g].variableId) in vars
      ensures forall id :: id in vars ==> exists i ::
        LastWritten(globalOrder, globals, (g: GlobalInfo) => OutputId(cfg.os, base, g.variableId), id, i) &&
        vars[id] == GlobalEntryOf(cfg.os, base, globals[globalOrder[i]])
    {
      var os := cfg.os;
      fns := Rekey(order, functions, (f: FunctionInfo) => OutputId(os, base, f.functionId), (f: FunctionInfo) => FunctionEntryOf(os, base, f));
      vars := Rekey(globalOrder, globals, (g: GlobalInfo) => OutputId(os, base, g.variableId), (g: GlobalInfo) => GlobalEntryOf(os, base, g));
    }
  }

  /** A function record as metadata.json lists it. */
  function FunctionEntryOf(os: Paths.Os, base: string, f: FunctionInfo): (e: FunctionEntry)
    ensures WellFormedId(f.functionId) ==> e.line == IdLine(f.functionId)
    ensures f.details.None? ==> e.endLine == e.line
    ensures e.callersFunctionNames == f.callersFunctionNames && e.calleesFunctionNames == f.calleesFunctionNames
  {
    var parts := RSplitOnce(f.functionId, ':');
    var line := if |parts| == 2 then ParseInt(parts[1]).GetOr(0) else 0;
    FunctionEntry(
      f.functionName, f.qualifiedName, RelativeFile(os, base, parts[0]), line,
      match f.details case Some(d) => d.endLine case None => line,
      f.moduleName,
      match f.details case Some(d) => d.params case None => [],
      f.callersFunctionNames, f.calleesFunctionNames)
  }

  /** A global record as metadata.json lists it. */
  function GlobalEntryOf(os: Paths.Os, base: string, g: GlobalInfo): (e: GlobalEntry)
    ensures WellFormedId(g.variableId) ==> e.line == IdLine(g.variableId)
    ensures e.name == g.variableName && e.typeSpelling == g.typeSpelling
  {
    var parts := RSplitOnce(g.variableId, ':');
    var line := if |parts| == 2 then ParseInt(parts[1]).GetOr(0) else 0;
    GlobalEntry(g.variableName, g.qualifiedName, RelativeFile(os, base, parts[0]), line, g.moduleName, g.typeSpelling)
  }

  /** A record whose name lists list the callers and callees given. */
  ghost predicate NamesFilled(f: FunctionInfo, callers: set<string>, callees: set<string>, fns: map<string, FunctionInfo>) {
    NamesOfKeys(f.callersFunctionNames, callers, fns) && NamesOfKeys(f.calleesFunctionNames, callees, fns)
  }

  function WithoutNames(f: FunctionInfo): FunctionInfo {
    f.(callersFunctionNames := [], calleesFunctionNames := [])
  }

  /** Two function tables that differ at most in their name lists. */
  ghost predicate NamesOnlyDiffer(a: map<string, FunctionInfo>, b: map<string, FunctionInfo>) {
    a.Keys == b.Keys && forall k :: k in a ==> WithoutNames(a[k]) == WithoutNames(b[k])
  }

  lemma ConsistentNamesOnly(cfg: Config, t: Tables, fns: map<string, FunctionInfo>)
    requires Consistent(cfg, t) && NamesOnlyDiffer(fns, t.functions)
    ensures Consistent(cfg, t.(functions := fns))
  {
    forall k | k in fns
      ensures fns[k].functionId == t.functions[k].functionId && fns[k].details == t.functions[k].details
    {
      assert WithoutNames(fns[k]) == WithoutNames(t.functions[k]);
    }
  }

  /** The first `n` keys of `order` have their name lists filled. */
  ghost predicate FilledUpTo(fns: map<string, FunctionInfo>, order: seq<string>, cg: map<string, set<string>>,
                             rg: map<string, set<string>>, original: map<string, FunctionInfo>, n: int)
  {
    forall j :: 0 <= j < n && j < |order| ==>
      order[j] in fns && NamesFilled(fns[order[j]], Lookup(rg, order[j]), Lookup(cg, order[j]), original)
  }

  /** Filling the next key leaves the keys before it filled. */
  lemma FilledStep(fns: map<string, FunctionInfo>, order: seq<string>, cg: map<string, set<string>>,
                   rg: map<string, set<string>>, original: map<string, FunctionInfo>, i: int, v: FunctionInfo)
    requires 0 <= i < |order| && Distinct(order)
    requires FilledUpTo(fns, order, cg, rg, original, i)
    requires NamesFilled(v, Lookup(rg, order[i]), Lookup(cg, order[i]), original)
    ensures FilledUpTo(fns[order[i] := v], order, cg, rg, original, i + 1)
  {
  }

  lemma FilledEverywhere(fns: map<string, FunctionInfo>, order: seq<string>, cg: map<string, set<string>>,
                         rg: map<string, set<string>>, original: map<string, FunctionInfo>)
    requires forall k :: k in order <==> k in fns
    requires FilledUpTo(fns, order, cg, rg, original, |order|)
    ensures forall k :: k in fns ==> NamesFilled(fns[k], Lookup(rg, k), Lookup(cg, k), original)
  {
    forall k | k in fns
      ensures NamesFilled(fns[k], Lookup(rg, k), Lookup(cg, k), original)
    {
      var j :| 0 <= j < |order| && order[j] == k;
    }
  }

  /** NamesOfKeys only reads qualified names. */
  lemma NamesOfKeysSameNames(names: seq<string>, keys: set<string>, a: map<string, FunctionInfo>, b: map<string, FunctionInfo>)
    requires NamesOnlyDiffer(a, b)
    requires NamesOfKeys(names, keys, a)
    ensures NamesOfKeys(names, keys, b)
  {
    var picked: seq<string> :| Distinct(picked) && (forall k :: k in picked <==> k in keys && k in a) &&
      |names| == |picked| && forall i :: 0 <= i < |picked| ==> names[i] == a[picked[i]].qualifiedName;
    forall i | 0 <= i < |picked|
      ensures names[i] == b[picked[i]].qualifiedName
    {
      assert picked[i] in picked;
      assert WithoutNames(a[picked[i]]) == WithoutNames(b[picked[i]]);
    }
    assert forall k :: k in picked <==> k in keys && k in b;
  }
}
