# A verified model of the C/C++ architecture analyser

The analyser reads a C/C++ source tree through libclang. From it, it builds a
call graph, units (one per `.cpp`/`.cc`/`.cxx` file), modules (the first
directory below the project base) and interface tables, which are then rendered
as views: interface tables, unit diagrams, flowcharts, and a Word export.

This project models the deterministic core of that pipeline in Dafny and proves
properties of it. Each source file keeps its own form. Pure helpers become
functions with lemmas. Loops that fill dictionaries become methods, and their
loop invariants tie the result to a specification function. The scripts'
module-level tables become the fields of a class that the visitors update in
place.

| Dafny file | models |
|---|---|
| `wrappers.dfy`, `text.dfy`, `ordering.dfy`, `grouping.dfy` | Python's `None`/exceptions, the `str` operations the code uses (`split`, `rsplit`, `replace`, `strip`, `lower`, `int`, `f"{n:02d}"`, `basename`, `splitext`), stable `sorted`, and `defaultdict(list)` grouping |
| `paths.dfy` | `src/utils.py`: the module of a path, `norm_path`, the primitive range table |
| `cursor.dfy` | the libclang cursor, the qualified name built from the semantic parents, the function key |
| `walker.dfy` | the definition pass and the call pass of `src/parser.py`, `analyzer.py` and `analyzer/function_analyzer.py`, as functions on the tables they fill |
| `scripts.dfy` | the same passes as the scripts run them: an `Analysis` object whose fields are the module-level dictionaries, recursive methods that update them, the caller/callee name loop, and `build_metadata` |
| `analyzer_report.dfy` | the module, file and component reports of `analyzer.py` |
| `model_deriver.dfy` | `src/model_deriver.py`: units and modules, per-file interface numbering, interface ids, the direction clean-up |
| `generator.dfy`, `generator_interfaces.dfy` | `src/generator.py`: components, units, and the interface table with its ordering and numbering |
| `interface_tables.dfy`, `interface_views.dfy` | the two interface-table builders (`src/interface_tables.py`, `src/views/interface_tables.py`) |
| `unit_diagrams.dfy` | the unit-diagram view: the function-to-unit map, box ids, label escaping, the edge set and the caller/callee partition |
| `flowcharts.dfy` | `fake_flowchart_generator.py`: file names, unit keys, grouping per unit and the files written |
| `llm_client.dfy` | `src/llm_client.py`: cutting a function's source by line range, the empty-source guards, the fence scan of the flowchart reply, and the enrichment loop |
| `docx_cells.dfy` | `src/docx_exporter.py`: grouping by module and the cell texts of each interface row |
| `views.dfy` | `src/views/__init__.py`: which views run, and in what order |

The following are parameters of the model, so every property holds for any choice of them:
- the operating system's path functions (`abspath`, `normcase`, `normpath`, `relpath`, `isabs`, `join`), held in `Paths.Os`;
- the helpers the code imports but that are not shown here (`make_unit_key`, `path_from_unit_rel`, `short_name`, `get_range`);
- the reading of source files;
- the LLM server.

`KEY_SEP` is `|`.

Python dictionaries that are iterated in insertion order are modelled as a map
together with its key order, or as a sequence of pairs. Where the code reads a
key that may be missing, the model uses an `Option`, and `KeyError` becomes
`None` or an error result.

Where the code has a quirk, the model follows the code as written. For each
quirk listed under "## Findings", a corrected definition stands beside the
as-written one, with the intended property proved about it.

Two schemas do not fit together as written. `src/generator.py` reads the
`"functions"` entry of `metadata.json` as a list of records that each carry an
`"id"`. `src/parser.py:185-241` writes an id-keyed dictionary whose records have
no `"id"`. `Generator` and `GeneratorInterfaces` model the generator on its own
input schema.

## Model

| member | source | states |
|---|---|---|
| Paths.GetModuleName | src/utils.py:5-18 | "unknown" for an empty path, for a path whose resolved form does not start with the resolved base (a character-prefix test) and where `relpath` fails; otherwise the relative path (with "/" for the separator) up to its first "/", or "unknown" when that is empty; never "" and never holds "/" |
| Paths.RelativeAndAbsoluteAgree | src/utils.py:9-11 | a relative spelling joined to the base and an absolute spelling of the same file give the same module |
| Paths.NormPath | src/utils.py:21-24 | an absolute path is only normalised; a relative one is joined to the base first |
| Paths.NormPathIgnoresBase | src/utils.py:22-23 | the base does not matter for an absolute path |
| Paths.GetRangeForType | src/utils.py:27-50 | "VOID" exactly for "void" and "void ..." without "*", after stripping and lower-casing; otherwise one of the seven range strings |
| Paths.RangeFamilies | src/utils.py:31-50 | which spelling gets which range: the int/long family the 32-bit signed range, short 16-bit, long long 64-bit, unsigned/unsigned int/unsigned long 0-0xFFFFFFFF, unsigned short 0-0xFFFF, unsigned long long, param_size_t and any other non-pointer size_t spelling 0-0xFFFFFFFFFFFFFFFF, and "NA" exactly for everything else |
| Paths.SignedAgrees | src/utils.py:32-41 | "signed X" and "X" get the same range for int, short, long and long long |
| Paths.RangeIgnoresCase | src/utils.py:28 | spellings equal up to case get the same range |
| Paths.RangeIgnoresSurroundingSpace | src/utils.py:28 | whitespace around a spelling does not change its range |
| Paths.RangeIgnoresQualifier | src/utils.py:31 | a leading "const " or "volatile " does not change the range of a non-void spelling |
| Paths.QualifiedNotVoid | src/utils.py:29-30 | a spelling that starts with "const " or "volatile " is never a void spelling |
| Paths.QualifiedRange | src/utils.py:29-50 | a qualified normalised spelling gets the range of its base, never "VOID" |
| Paths.QualifiedVoidIsNA | src/utils.py:29-50 | "void" is "VOID", but "const void" and "volatile void" are "NA" |
| Paths.GetRangeForTypeIntended | src/utils.py:27-50 | "VOID" exactly when the spelling without qualifiers is a void spelling; agrees with the as-written classification wherever neither spelling is void |
| Paths.IntendedIgnoresQualifier | src/utils.py:29-31 | with the intended classification a qualifier never changes the range, and a qualified void spelling is "VOID" |
| Paths.RangeOfBase | src/utils.py:32-50 | a base spelling never gets "VOID" |
| Cursors.Qualifiers | src/parser.py:73-76 | at most one name per ancestor, and none of them empty: an unnamed scope is "(anonymous)" |
| Cursors.GetQualifiedName | src/parser.py:70-78 | the loop that walks the parents from the nearest outwards and prepends each scope name yields the scope names outermost first, then the spelling, joined by "::" |
| Cursors.QualifiersInnermostLast | src/parser.py:73-76 | the nearest ancestor's name comes last among the qualifiers |
| Cursors.QualifiersSkipOtherKinds | src/parser.py:74 | ancestors other than namespaces, classes and structs add nothing |
| Cursors.QualifiedNameShape | src/parser.py:77-78 | without scope ancestors the name is the bare spelling; otherwise the scopes joined by "::", then "::" and the spelling |
| Cursors.LocationId | src/parser.py:102 | "file:line" splits back at its last ":" into the file and the decimal line |
| Cursors.LocationIdLine | src/parser.py:199-210 | `int(id.rsplit(":", 1)[1])` recovers the line, whatever colons the file holds |
| Cursors.LocationIdInjective | src/parser.py:130-133 | different locations get different ids, so a global revisited at its location overwrites its entry |
| Cursors.FunctionKey | src/parser.py:81-88 | the mangled name when there is one; else "qualified@file" and the line after the last ":" when there is a file; else the qualified name |
| Cursors.FallbackKeysDistinct | src/parser.py:85-87 | unmangled definitions of one file at different lines get different keys, even with equal qualified names |
| Walker.AnalyzerModuleName | analyzer.py:34-56 | "unknown" for an empty path, for one whose absolute form does not start with the base's and where `relpath` fails; otherwise the relative path up to its first platform separator, or "unknown" when that is empty; never "" |
| Walker.IsProjectFile | src/parser.py:62-67 | per script: parser.py's case-normalised prefix test and analyzer.py's plain one are false for "", function_analyzer.py tests the absolute path against the project root as given |
| Walker.EndLine | src/parser.py:111-116 | the extent's end line when the extent ends in the function's own file, else the start line |
| Walker.FunctionRecordOf | src/parser.py:118-126 | the record of a definition: its "file:line" id, spelling and qualified name; parameters and end line only in parser.py's variant |
| Walker.RecordFunction | src/parser.py:118-128 | stores the record under the function key, appends the key to its module's list and maps it to the module (not in function_analyzer.py); nothing else changes |
| Walker.RecordGlobal | src/parser.py:130-138 | adds exactly the "file:line" key of the global; the function tables and graphs are unchanged |
| Walker.DefStep | src/parser.py:91-138 | a tracked definition (function kind, definition, with a file in the project) gets its record under its key; other cursors leave the functions as they are; graphs untouched |
| Walker.WalkDefs | src/parser.py:91-141 | the definition pass never removes a function and never touches the call graphs |
| Walker.FirstByName | src/parser.py:155-158 | the first key in insertion order whose function has the spelling, and none before it matches; -1 when none does |
| Walker.ResolveCall | src/parser.py:149-158 | the referenced declaration's key when it is tracked, else the first tracked function spelled like the call, else none; the result is always tracked |
| Walker.AddEdge | src/parser.py:159-161 | the callee is in the caller's forward set and the caller in the callee's reverse set; the functions are unchanged |
| Walker.CallStep | src/parser.py:144-161 | a tracked definition becomes the enclosing key; a call outside any definition adds nothing; inside one, a call that resolves to a tracked callee adds exactly the edge from the enclosing key to it, and an unresolved call adds nothing |
| Walker.WalkCalls | src/parser.py:144-164 | the call pass leaves the function and global tables as they are |
| Walker.RunDefs | src/parser.py:244-249 | the first pass over all translation units never removes a function |
| Walker.RunCalls | src/parser.py:251-255 | the second pass over all translation units keeps the tables of definitions |
| Walker.AnalyseSymmetric | src/parser.py:159-161 | after both passes b is in `call_graph[a]` exactly when a is in `reverse_call_graph[b]` |
| Walker.AnalyseTracked | src/parser.py:148-161 | after both passes every caller and callee in either graph is a key of `functions` |
| Walker.AnalyseConsistent | analyzer.py:124-135 | the insertion orders list each key once, each function is filed under the module `function_to_module` gives it, and each id ends in ":line" |
| Walker.GlobalRevisitOverwrites | src/parser.py:130-138 | visiting a global's declaration again leaves the tables as they were after the first visit |
| Walker.FunctionRevisitRepeatsInModule | src/parser.py:127-128 | a definition visited twice keeps one function entry but its key is appended to its module's list a second time |
| Walker.FoldDefs | src/parser.py:140-141 | visiting the children in turn never removes a function and never touches the call graphs |
| Walker.FoldCalls | src/parser.py:163-164 | visiting the children in turn keeps the tables of definitions |
| Walker.AddEdgeSymmetric | src/parser.py:159-161 | adding an edge to both graphs keeps them mirror images |
| Walker.WalkCallsSymmetric | src/parser.py:144-164 | the call pass over a subtree keeps the graphs mirror images |
| Walker.RunCallsSymmetric | src/parser.py:251-255 | the call pass over all translation units keeps the graphs mirror images |
| Walker.WalkDefsRecords | src/parser.py:91-141 | after the definition pass every tracked definition of the subtree has its key recorded |
| Walker.RunDefsRecords | src/parser.py:244-249 | after the first pass every tracked definition of every translation unit has its key recorded |
| Walker.AddEdgeTracked | src/parser.py:159-161 | an edge between recorded functions keeps every graph entry recorded |
| Walker.WalkCallsTracked | src/parser.py:144-164 | the call pass over a subtree whose definitions are recorded only adds edges between recorded functions |
| Walker.RunCallsTracked | src/parser.py:251-255 | the call pass over all translation units only adds edges between recorded functions |
| Walker.RecordFunctionOrders | src/parser.py:118-128 | storing a function keeps the insertion order exact: each key once, exactly the keys stored |
| Walker.RecordFunctionConsistent | src/parser.py:118-128 | storing a function keeps the tables consistent |
| Walker.RecordGlobalConsistent | src/parser.py:130-138 | storing a global keeps the tables consistent |
| Walker.WalkDefsConsistent | src/parser.py:91-141 | the definition pass over a subtree keeps the tables consistent |
| Walker.RunDefsConsistent | src/parser.py:244-249 | the first pass over all translation units keeps the tables consistent |
| Scripts.OutputIdLine | src/parser.py:199-210 | the output id is the relative file, ":" and the source line, and reading the line back from it gives that line |
| Scripts.Rekey | src/parser.py:198-232 | the loop that re-keys a table by a derived id: every input key's new id has an entry, and each entry is that of the last key written to it |
| Scripts.Analysis.constructor | src/parser.py:53-59 | the module-level tables start empty |
| Scripts.Analysis.RecordDefinition | src/parser.py:91-138 | the fields after one cursor's own part of `visit_definitions` are DefStep of the fields before |
| Scripts.Analysis.RecordFunctionAt | src/parser.py:118-128 | the fields after recording a tracked definition are RecordFunction of the fields before |
| Scripts.Analysis.StoreFunction | src/parser.py:118 | `functions[key] = info`, with the key appended to the insertion order only when it is new |
| Scripts.Analysis.FileUnderModule | src/parser.py:127-128 | the key is appended to its module's list and mapped to the module; nothing else changes |
| Scripts.Analysis.RecordGlobalAt | src/parser.py:130-138 | the fields after recording a global are RecordGlobal of the fields before |
| Scripts.Analysis.VisitDefinitions | src/parser.py:91-141 | the recursive visit leaves the fields as WalkDefs computes them from the fields before |
| Scripts.Analysis.RecordCall | src/parser.py:144-161 | the fields and the key passed to the children are CallStep of the fields before |
| Scripts.Analysis.ResolveCallAt | src/parser.py:149-158 | the callee lookup returns ResolveCall of the current fields |
| Scripts.Analysis.FindByName | src/parser.py:155-158 | the scan returns the first key in insertion order whose function has the spelling, or none |
| Scripts.Analysis.AddEdgeAt | src/parser.py:159-161 | the fields after adding the edge are AddEdge of the fields before |
| Scripts.Analysis.VisitCalls | src/parser.py:144-164 | the recursive visit leaves the fields as WalkCalls computes them from the fields before |
| Scripts.Analysis.Run | src/parser.py:244-255 | both passes from empty tables give Analyse of the translation units, with symmetric graphs whose every key is tracked |
| Scripts.Analysis.NamesOf | src/parser.py:187-192 | the qualified names of exactly the recorded keys of the set, one per key, each name that of a recorded key |
| Scripts.Analysis.PopulateRelationships | analyzer/function_analyzer.py:194-208 | every function's caller and callee name lists hold the qualified names of its recorded callers and callees in the graphs; nothing else changes |
| Scripts.Analysis.FillAll | src/parser.py:186-192 | the loop over the insertion order fills the name lists of every key and changes nothing else |
| Scripts.Analysis.FillNames | src/parser.py:187-192 | one iteration fills the two name lists of one function and changes no other entry |
| Scripts.Analysis.BuildMetadata | src/parser.py:185-232 | the relationships are filled; every function and global has an entry under its output id, and each entry is the one built from the last record written under that id |
| Scripts.Analysis.ExportMetadata | src/parser.py:194-232 | each function and global has an entry under its relative "file:line" id, and each entry is that of the last record with that id |
| Scripts.FunctionEntryOf | src/parser.py:205-217 | the entry's line is the one in its id, its end line defaults to that line, and its name lists are the record's |
| Scripts.GlobalEntryOf | src/parser.py:226-232 | the entry's line is the one in its id, with the record's name and type |
| ModelDeriver.FilePath | src/model_deriver.py:31-32 | a record without a file is normalised from "" (so not necessarily dropped by the emptiness test); an absolute file is only normalised |
| ModelDeriver.AddFiles | src/model_deriver.py:37-44 | the loop adds exactly the non-empty normalised files of the records to `all_files` |
| ModelDeriver.RelOf | src/model_deriver.py:48-51 | the relative path, or the file itself when none exists, with every backslash turned into "/" |
| ModelDeriver.UnitByFile | src/model_deriver.py:46-52 | `unit_by_file` has exactly the collected files as keys, each mapped to the unit key of its relative path |
| ModelDeriver.IdsIn | src/model_deriver.py:65-67 | the ids whose record's file normalises to the given file, in object order |
| ModelDeriver.SortedIdsExact | src/model_deriver.py:65-68 | a unit's id list is ordered by line, is a permutation of the ids of its file, and holds exactly those ids |
| ModelDeriver.CollectUnitsOfIds | src/model_deriver.py:74-83 | the inner loop collects the units of the listed ids' files other than the unit itself |
| ModelDeriver.CollectLinkedUnits | src/model_deriver.py:70-83 | the loops over the unit's functions collect the union of those unit sets |
| ModelDeriver.FileUnitOf | src/model_deriver.py:56-101 | the body for an accepted file computes that file's unit entry |
| ModelDeriver.AddFileUnit | src/model_deriver.py:55-101 | a file whose base name ends in .cpp/.cc/.cxx (any case) creates or merges its unit; any other file leaves the units unchanged |
| ModelDeriver.UnitsLoop | src/model_deriver.py:54-101 | the loop over the sorted files gives the fold of every accepted file's contribution in file order |
| ModelDeriver.SortedFiles | src/model_deriver.py:36-47 | the files are `sorted(all_files)` of both objects |
| ModelDeriver.BuildUnitsModules | src/model_deriver.py:35-112 | `unit_by_file`, the units from the sorted files and the modules from the units, each as the specification functions define them |
| ModelDeriver.UnitsAreWellFormed | src/model_deriver.py:77-91 | every unit key is listed once and no unit lists itself as a caller or callee unit, whatever merges happened |
| ModelDeriver.UnitKeysFromSources | src/model_deriver.py:55-58 | the unit keys are exactly those of the files whose base name ends in .cpp, .cc or .cxx |
| ModelDeriver.FoldUnitsIds | src/model_deriver.py:86-89 | merging concatenates: a unit's id lists are those of all its files, in file order |
| ModelDeriver.UnitFunctionIds | src/model_deriver.py:65-66 | a function id is under unit k exactly when its record normalises to an accepted file whose unit key is k |
| ModelDeriver.UnitsWithPrefix | src/model_deriver.py:104 | the units whose first KEY_SEP segment is the module, in unit order |
| ModelDeriver.ModulesOf | src/model_deriver.py:103-104 | one module entry per module name |
| ModelDeriver.ModulesExact | src/model_deriver.py:103-104 | the module names are the distinct first segments of unit keys holding KEY_SEP, strictly sorted, and each module lists exactly its units |
| ModelDeriver.EntryOf | src/model_deriver.py:116-120 | an entry keeps its id |
| ModelDeriver.AllEntries | src/model_deriver.py:116-120 | `all_entries` is the functions, then the globals, each in object order |
| ModelDeriver.AllEntriesDistinct | src/model_deriver.py:116-120 | the entries' ids are distinct when no id repeats across the two objects |
| ModelDeriver.GroupByFile | src/model_deriver.py:122-126 | `by_file` has exactly the non-empty files as keys, each with its entries in entry order |
| ModelDeriver.NumberInto | src/model_deriver.py:130-131 | the inner loop numbers the group's ids from 1 |
| ModelDeriver.NumberFiles | src/model_deriver.py:129-131 | the outer loop numbers the sorted groups of the sorted files |
| ModelDeriver.BuildInterfaceIndex | src/model_deriver.py:115-132 | the entries in object order and the index the specification defines over them |
| ModelDeriver.NumberGroupPosition | src/model_deriver.py:130-131 | an id gets the 1-based position of its last occurrence in the group |
| ModelDeriver.IndexDomain | src/model_deriver.py:122-131 | exactly the ids of entries with a non-empty normalised file are numbered |
| ModelDeriver.SortedGroupContents | src/model_deriver.py:130 | a file's sorted group holds that file's entries, ordered by line, as a permutation |
| ModelDeriver.IndexInRange | src/model_deriver.py:128-131 | every number is between 1 and the size of some file's group, and that group holds the id there |
| ModelDeriver.IndexExact | src/model_deriver.py:128-131 | with no repeated id, the entry at position j of a file's line-sorted group is numbered j + 1 |
| ModelDeriver.InterfaceRel | src/model_deriver.py:139-143 | "" without a file; the relative path with "/" separators when it exists, the raw file otherwise |
| ModelDeriver.UnitCode | src/model_deriver.py:144-145 | no "/" and no lower-case ASCII letter; "" without a file |
| ModelDeriver.InterfaceIdPrefix | src/model_deriver.py:147 | an interface id starts with "IF_", the upper-cased project and "_" |
| ModelDeriver.InterfaceIdIndex | src/model_deriver.py:146-147 | after the last "_" comes the index in at least two digits, which reads back as the index |
| ModelDeriver.NormalizeParam | src/model_deriver.py:149 | both keys present, each the given value or "" |
| ModelDeriver.NormalizeParams | src/model_deriver.py:149 | one normalised parameter per parameter, in order |
| ModelDeriver.NormalizeParamsIdempotent | src/model_deriver.py:149 | normalising twice changes nothing |
| ModelDeriver.EnrichFunction | src/model_deriver.py:137-151 | the function gets its interface id and its normalised parameters; nothing else changes |
| ModelDeriver.EnrichGlobal | src/model_deriver.py:152-162 | the global gets its interface id; nothing else changes |
| ModelDeriver.UpdateEach | src/model_deriver.py:137-151 | the in-place loop keeps the keys and applies the update to each record |
| ModelDeriver.EnrichInterfaces | src/model_deriver.py:135-162 | every function and every global is updated by its enrichment, keys and order unchanged |
| ModelDeriver.FunctionDirection | src/model_deriver.py:189-191 | "Out" exactly when the stripped direction is "Out", else "In"; nothing else changes |
| ModelDeriver.GlobalDirection | src/model_deriver.py:193-194 | the direction is "In/Out"; nothing else changes |
| ModelDeriver.DropParams | src/model_deriver.py:197-198 | `params` is gone; nothing else changes |
| ModelDeriver.FunctionDirectionIdempotent | src/model_deriver.py:189-191 | normalising a normalised direction changes nothing |
| ModelDeriver.NormalizeDirections | src/model_deriver.py:188-198 | functions get a normalised direction and lose `params`, globals get "In/Out" |
| ModelDeriver.Derive | src/model_deriver.py:179-198 | units and modules, the interface index, each record's interface id and parameters, then the direction clean-up, each as specified |
| ModelDeriver.IdSuffixIsPosition | src/model_deriver.py:130-147 | with no repeated id, the two digits ending an interface id are the record's 1-based position in its file's line-sorted group |
| Generator.FunctionsList | src/generator.py:33-45 | one item per record in order, each with its "file:line" id from the normalised file |
| Generator.FunctionIdFile | src/generator.py:40-50 | the text before the last ":" of an item's id is its normalised file |
| Generator.FilePaths | src/generator.py:47 | `file_paths` is strictly sorted and holds exactly the files of the items |
| Generator.QualifiedToFile | src/generator.py:48-51 | `qualified_to_file` has exactly the qualified names as keys, each mapped to exactly the files of the items with that name |
| Generator.FilesNamedAreFiles | src/generator.py:47-51 | every file `qualified_to_file` lists is one of `file_paths` |
| Generator.ModuleOfFile | src/generator.py:55-59 | the module of a file is never "" and holds no "/" |
| Generator.UnitNameModule | src/generator.py:59-60 | a unit name is never "" and the text before its first "/" is its file's module |
| Generator.QualifiedFilesOf | src/generator.py:48-51 | a map with those keys and those file sets is the filled `qualified_to_file` |
| Generator.QualifiedFilesKeys | src/generator.py:48-51 | the keys of `qualified_to_file` are exactly the qualified names of the items |
| Generator.UnitByFile | src/generator.py:53-60 | `unit_by_file` has exactly the files as keys, each with its "<module>/<basename>" unit name |
| Generator.ModuleFuncs | src/generator.py:63-65 | a module's list holds exactly the items of that module |
| Generator.ModsOfFilesLinks | src/generator.py:73-80 | the modules of one name's files are those it links to, other than the module itself |
| Generator.LinkedModulesMember | src/generator.py:70-89 | a module's caller (callee) set holds exactly the other modules defining a caller (callee) name of one of its functions |
| Generator.NameLinksDefined | src/generator.py:48-51 | a name links to module x exactly when some item of that qualified name has its file in x |
| Generator.AddModsOfFiles | src/generator.py:73-80 | the innermost loop adds the modules of the files other than the module |
| Generator.AddModsOfNames | src/generator.py:72-80 | the loop over the names adds the modules of their files other than the module |
| Generator.CollectLinkSet | src/generator.py:71-89 | the loop over a module's functions collects its caller (callee) module set |
| Generator.LinkSets | src/generator.py:70-89 | both sets of one module |
| Generator.ModuleToFuncs | src/generator.py:63-65 | `module_to_funcs` has exactly the items' modules as keys, each with its items in list order |
| Generator.FunctionNames | src/generator.py:97 | the function names of the items, in order |
| Generator.ComponentSorted | src/generator.py:95-96 | a component's incoming and outgoing lists are strictly sorted |
| Generator.ComponentLinks | src/generator.py:70-96 | a component's incoming (outgoing) list never names itself and holds exactly the other modules defining a caller (callee) of one of its functions |
| Generator.ComponentFunctions | src/generator.py:97 | a component lists exactly the function names of its module's items |
| Generator.Components | src/generator.py:66-98 | one component per sorted module name, each as specified |
| Generator.AllLinkSets | src/generator.py:67-89 | the first loop stores both sets of every module |
| Generator.BuildComponents | src/generator.py:91-98 | the second loop builds each component from the stored sets, sorted |
| Generator.FuncsIn | src/generator.py:107 | `funcs_in` holds exactly the items of the file |
| Generator.GroupRepresents | src/generator.py:109-121 | the grouped map holds exactly the (unit, name) pairs, with no empty entry |
| Generator.AddUnitsOfFiles | src/generator.py:113-116 | the innermost loop adds the name under the unit of each known file other than the unit itself |
| Generator.AddUnitsOfNames | src/generator.py:112-116 | the loop over the names adds their pairs |
| Generator.CollectUnitLinks | src/generator.py:111-121 | `caller_units` (`callee_units`) of one file is the grouping of its pairs |
| Generator.UnitLinks | src/generator.py:109-121 | both maps of one file |
| Generator.UnitPairsMember | src/generator.py:111-121 | a pair is collected exactly when its unit is known, not "" and not this unit, defines the name, and the name is a caller (callee) of one of the functions |
| Generator.Refs | src/generator.py:127-128 | one entry per unit of the map |
| Generator.UnitFor | src/generator.py:106-129 | one pass of the unit loop builds the file's unit as specified |
| Generator.Units | src/generator.py:105-129 | units.json holds the unit of each file, in `file_paths` order |
| Generator.RefsSorted | src/generator.py:127-128 | entries are strictly sorted by unit name, and each lists the sorted names the map holds for its unit |
| Generator.RefsMember | src/generator.py:127-128 | an entry lists a name under a unit exactly when the map holds it |
| Generator.LinkRefsShape | src/generator.py:109-128 | a unit's callerUnits (calleesUnits) are sorted, never "" or the unit itself, with sorted non-empty name lists |
| Generator.LinkRefsMember | src/generator.py:109-128 | unit u lists name c exactly when u is another known unit defining c and c is a caller (callee) of a function of the file |
| Generator.UnitNaming | src/generator.py:106-126 | a unit is named "<module>/<basename>", its moduleName is that module, and its functionNames are exactly the sorted qualified names of its file's functions |
| Generator.ComponentFromParts | src/generator.py:91-98 | a component built from the stored link sets and the module's functions is the specified component |
| Generator.AddUnitsOfName | src/generator.py:112-116 | one more name adds the pairs of the files that define it |
| Generator.AddFunctionUnits | src/generator.py:111-116 | one function adds the pairs of its callers (callees) |
| Generator.AppendUnit | src/generator.py:106-129 | one pass of the unit loop appends the unit of the next file |
| Generator.PairRefsShape | src/generator.py:109-128 | entries built from a file's pairs are sorted by unit, never "" or this unit, each with a sorted non-empty name list |
| Generator.PairRefsMember | src/generator.py:109-128 | an entry lists a name under a unit exactly when that unit is another known unit defining the name and the name is a caller (callee) of a function of the file |
| Generator.RefsEntrySound | src/generator.py:127-128 | what an entry lists, the map holds |
| Generator.RefsEntryComplete | src/generator.py:127-128 | what the map holds, an entry lists |
| GeneratorInterfaces.ItemsOf | src/generator.py:136-140 | `all_entries` holds the functions, then the globals, each in list order |
| GeneratorInterfaces.AllItems | src/generator.py:136-140 | the two loops build exactly `ItemsOf` |
| GeneratorInterfaces.Files | src/generator.py:142-147 | `sorted(by_file.keys())` is strictly sorted and holds exactly the normalised files of the entries |
| GeneratorInterfaces.Groups | src/generator.py:142-149 | one line-sorted group per sorted file, in that order |
| GeneratorInterfaces.GroupsOfByFile | src/generator.py:142-149 | every sorted key has a group in `by_file`, and the groups read in sorted key order are the files' line-sorted groups |
| GeneratorInterfaces.OrderItems | src/generator.py:146-149 | `ordered` is the concatenation of the sorted groups, read in sorted file order |
| GeneratorInterfaces.NumberInto | src/generator.py:154-155 | the inner loop numbers one group's ids 1, 2, ... |
| GeneratorInterfaces.IndexItems | src/generator.py:151-155 | the outer loop numbers every group in sorted file order |
| GeneratorInterfaces.FileGroupMember | src/generator.py:142-145 | an entry of a file's group is an entry of that file |
| GeneratorInterfaces.ConcatMember | src/generator.py:146-149 | an entry of `ordered` comes from one of the groups |
| GeneratorInterfaces.ConcatCount | src/generator.py:146-149 | an entry found in one group only occurs in the concatenation as often as in it |
| GeneratorInterfaces.OnlyOwnGroup | src/generator.py:142-145 | an entry lies only in the group of its own file |
| GeneratorInterfaces.OrderedCount | src/generator.py:142-149 | each entry occurs in `ordered` as often as in `all_entries` |
| GeneratorInterfaces.OrderedIsPermutation | src/generator.py:142-149 | `ordered` is a permutation of `all_entries` |
| GeneratorInterfaces.ConcatOrdered | src/generator.py:146-149 | appending a line-sorted group of a larger file keeps file-then-line order |
| GeneratorInterfaces.GroupsOrdered | src/generator.py:146-149 | line-sorted groups of increasing files concatenate to a file-then-line ordered list |
| GeneratorInterfaces.OrderedByFileThenLine | src/generator.py:142-149 | `ordered` runs by normalised file path, then by line within a file |
| GeneratorInterfaces.NumberGroupKeeps | src/generator.py:154-155 | numbering a group leaves ids outside it as they were |
| GeneratorInterfaces.NumberGroupPosition | src/generator.py:154-155 | in a group without repeated ids each id gets its 1-based position |
| GeneratorInterfaces.NumberAllPosition | src/generator.py:151-155 | an id held by one group only keeps the position that group gives it |
| GeneratorInterfaces.CountAtMostOne | src/generator.py:136-140 | with distinct ids no entry occurs twice |
| GeneratorInterfaces.GroupIdsDistinct | src/generator.py:142-155 | a file's line-sorted group has distinct ids when all entries do |
| GeneratorInterfaces.SameIdSameFile | src/generator.py:144 | an entry's file key depends on its id alone |
| GeneratorInterfaces.OnlyOwnFileHasId | src/generator.py:142-155 | the groups of other files hold no entry with the same id |
| GeneratorInterfaces.IndexNumbersWithinFile | src/generator.py:151-155 | `interface_index` numbers each file's entries 1, 2, ... in line order |
| GeneratorInterfaces.ParamsOf | src/generator.py:185-189 | one parameter per input parameter, each with the range of its type |
| GeneratorInterfaces.AddFileUnits | src/generator.py:178-179 | the innermost loop adds the unit (or "") of each file defining the name |
| GeneratorInterfaces.CollectNameUnits | src/generator.py:177-182 | the loop over callers (callees) collects the units of all their files |
| GeneratorInterfaces.InterfaceFor | src/generator.py:158-208 | one pass of the loop over `ordered` builds the entry as specified |
| GeneratorInterfaces.InterfacesData | src/generator.py:157-208 | `interfaces_data` has one entry per element of `ordered`, in that order |
| GeneratorInterfaces.InterfacesOver | src/generator.py:157-208 | one specified entry per element of `ordered` |
| GeneratorInterfaces.InterfaceTable | src/generator.py:136-208 | None exactly when a line sort key raises (an id without ":" or with a non-integer line), else the specified entries |
| GeneratorInterfaces.OrderAndIndex | src/generator.py:142-155 | the loops build `ordered` and `interface_index` as specified |
| GeneratorInterfaces.LoopsOverFiles | src/generator.py:142-155 | every sorted key has a group, and the groups read from `by_file` are the line-sorted groups of the sorted entry files |
| GeneratorInterfaces.OrderedOfGroups | src/generator.py:146-149 | the concatenated groups are `ordered` |
| GeneratorInterfaces.IndexOfGroups | src/generator.py:151-155 | numbering the groups gives `interface_index` |
| GeneratorInterfaces.GroupedByFile | src/generator.py:142-145 | the `by_file` loop leaves a group for every sorted key |
| GeneratorInterfaces.FilesOfGroups | src/generator.py:146-147 | `sorted(by_file.keys())` is the sorted list of entry files |
| GeneratorInterfaces.NameUnitsMember | src/generator.py:177-182 | a unit is collected exactly when it is the unit of a file defining one of the names |
| GeneratorInterfaces.UnitListMeaning | src/generator.py:174-196 | callerUnits (calleesUnits) are sorted, never "", and hold exactly the known units of files defining a caller (callee); the own unit is not excluded |
| GeneratorInterfaces.InterfaceCount | src/generator.py:136-208 | interfaces.json has one entry per function and global |
| GeneratorInterfaces.IdEndsWithNumber | src/generator.py:167-168 | an interface id ends with "_" and its two-digit (or wider) number |
| GeneratorInterfaces.InterfaceIdNumber | src/generator.py:151-168 | the number ending an interface id is the entry's 1-based line position in its file |
| GeneratorInterfaces.FnItems | src/generator.py:33-45 | `functions_list`, one item per function |
| GeneratorInterfaces.Generate | src/generator.py:18-216 | exit status 1 without metadata; else one component per module holding its functions, one unit per function file named after module and base name with its functions, and one interface per function and global as the interface rules give them (None when a line sort key raises) |
| GeneratorInterfaces.UnitNames | src/generator.py:105-128 | each unit is named after the module and base name of its file |
| InterfaceTables.EntryFields | src/interface_tables.py:31-68 | a row keeps the record's line, strips only the extension of its file and of each caller and callee unit (same order and count), shows a missing direction as "-", and has a description only when the record's is non-empty |
| InterfaceTables.Rows | src/interface_tables.py:28-68 | one row per id, built from its record |
| InterfaceTables.SortedRows | src/interface_tables.py:28 | None exactly when some id lacks an integer after its last ":" (the sort key raises) |
| InterfaceTables.EntriesSpec | src/interface_tables.py:27-68 | a unit's rows are None exactly when an id of its functions or globals has no integer line |
| InterfaceTables.UnitEntries | src/interface_tables.py:27-68 | the two loops of one unit compute `EntriesSpec` |
| InterfaceTables.SortedRowsShape | src/interface_tables.py:28-53 | the rows are those of the ids the data has, in order of the line ending the id; a missing id has no row |
| InterfaceTables.EntriesShape | src/interface_tables.py:27-69 | a unit's rows are its function rows followed by its global rows |
| InterfaceTables.FunctionsBeforeGlobals | src/interface_tables.py:28-68 | a function row never follows a global row |
| InterfaceTables.BuildInterfaceTables | src/interface_tables.py:16-70 | the loop over the units computes the table map |
| InterfaceTables.NoneStays | src/interface_tables.py:23-69 | once a unit's rows have raised, the build has raised |
| InterfaceTables.TablesFail | src/interface_tables.py:23-69 | the build raises exactly when the rows of some ".cpp" unit raise |
| InterfaceTables.TableKeys | src/interface_tables.py:23-69 | a table exists exactly for the extension-stripped name of each ".cpp" unit |
| InterfaceTables.TableOfLastUnit | src/interface_tables.py:23-69 | the table under a key holds the rows of the last ".cpp" unit with that stripped name |
| InterfaceViews.FidUnits | src/views/interface_tables.py:16-22 | each listed function id maps to exactly the units listing it |
| InterfaceViews.FidToUnits | src/views/interface_tables.py:16-22 | `_fid_to_unit` computes `FidUnits` |
| InterfaceViews.AddUnit | src/views/interface_tables.py:20-21 | the inner loop adds the unit to the set of each of its ids and changes nothing else |
| InterfaceViews.FilledStep | src/views/interface_tables.py:19-21 | adding one unit's ids keeps the table right for the units done so far |
| InterfaceViews.ListingStep | src/views/interface_tables.py:19-21 | the units listing an id grow by the new unit exactly when it lists the id |
| InterfaceViews.UnitNamesOf | src/views/interface_tables.py:29 | `unitNames` has a name for exactly every unit |
| InterfaceViews.DisplayNameOfKey | src/views/interface_tables.py:29-35 | a unit without a name is shown by the separator-free text that ends its key |
| InterfaceViews.InterfaceNameParts | src/views/interface_tables.py:47-48 | the interface name is empty only when both parts are, starts with the file code and ends with the short name, joined by "_" when both are present |
| InterfaceViews.SortedUnits | src/views/interface_tables.py:49-58 | caller (callee) units are strictly sorted, never "", and hold exactly the units listing one of the ids; the row's own unit is not left out |
| InterfaceViews.WithRange | src/views/interface_tables.py:60-63 | a parameter keeps all its keys and gains the range of its type ("" when it has none) |
| InterfaceViews.RowFields | src/views/interface_tables.py:39-110 | a function row names its function, unit, line and caller/callee units, each parameter gains a range, a missing direction is "-"; a global row has no caller or callee units |
| InterfaceViews.Rows | src/views/interface_tables.py:37-110 | one row per id, built from its record |
| InterfaceViews.UnitEntries | src/views/interface_tables.py:36-110 | the two loops of one unit compute its rows |
| InterfaceViews.SortedRowsShape | src/views/interface_tables.py:37-82 | the rows are those of the ids the data has, ascending by location line (0 when missing) |
| InterfaceViews.RowLine | src/views/interface_tables.py:37-38 | a row sits at the line its sort key reads |
| InterfaceViews.FunctionsBeforeGlobals | src/views/interface_tables.py:36-110 | a function row never follows a global row |
| InterfaceViews.CppKeys | src/views/interface_tables.py:33 | exactly the units whose fileName ends with ".cpp" |
| InterfaceViews.FillStep | src/views/interface_tables.py:32-111 | one step of the loop adds the table of a ".cpp" unit and nothing else |
| InterfaceViews.BuildInterfaceTables | src/views/interface_tables.py:25-112 | tables exist exactly for the ".cpp" units, each with its display name and rows, and `unitNames` names every unit unless a ".cpp" unit keyed "unitNames" overwrites it |
| InterfaceViews.TodoStep | src/views/interface_tables.py:32 | moving a key from the keys to do to the keys done keeps them complementary |
| InterfaceViews.FillTables | src/views/interface_tables.py:31-111 | the loop over the units leaves every wanted table and the names |
| InterfaceViews.TableFor | src/views/interface_tables.py:35-111 | the loop body builds the wanted table of a ".cpp" unit |
| UnitDiagrams.FirstIndex | src/views/unit_diagrams.py:16-23 | the position of the first unit listing the id, -1 exactly when none does |
| UnitDiagrams.FirstUnitStep | src/views/unit_diagrams.py:18-22 | one more unit only assigns the ids no earlier unit listed |
| UnitDiagrams.FidToUnit | src/views/unit_diagrams.py:16-23 | each id maps to the first unit, in dictionary order, listing it; unlisted ids are absent |
| UnitDiagrams.AddFirst | src/views/unit_diagrams.py:20-22 | the inner loop assigns the unit to the ids not yet assigned and changes nothing else |
| UnitDiagrams.UnitPartId | src/views/unit_diagrams.py:26-28 | a node id is non-empty, holds no separator or space, keeps every other character in place, and is "u" for the empty key |
| UnitDiagrams.PartIdIdempotent | src/views/unit_diagrams.py:26-28 | a node id is its own node id |
| UnitDiagrams.PartIdsCollide | src/views/unit_diagrams.py:26-28 | the distinct keys "m\|a b" and "m\|a_b" get the same node id |
| UnitDiagrams.UnitPartIdIntended | src/views/unit_diagrams.py:26-28 | a node id that is non-empty and holds no separator or space |
| UnitDiagrams.UnescapeEscape | src/views/unit_diagrams.py:26-28 | the escaped key reads back as the key |
| UnitDiagrams.PartIdIntendedInjective | src/views/unit_diagrams.py:26-28 | distinct keys get distinct intended node ids |
| UnitDiagrams.PartIdIntendedAgrees | src/views/unit_diagrams.py:26-28 | keys without "_", separator or space get the same node id from both definitions |
| UnitDiagrams.EscapeLabel | src/views/unit_diagrams.py:31-35 | same length, no `"`, newline or `\|` left, every other character kept |
| UnitDiagrams.ModuleOf | src/views/unit_diagrams.py:44 | the separator-free text before the first separator, "" for a key without one |
| UnitDiagrams.CollectMeaning | src/views/unit_diagrams.py:46-73 | an edge is present exactly when some pair names it, with exactly the interface ids paired with it |
| UnitDiagrams.CollectStep | src/views/unit_diagrams.py:59-73 | `setdefault(key, set()).add(iface)` adds one pair |
| UnitDiagrams.EdgeOrigin | src/views/unit_diagrams.py:46-73 | every edge leaves this box towards the unit of a callee in another unit with a non-empty interface id, or enters it from a caller in another unit into a function with a non-empty interface id |
| UnitDiagrams.OutPairOrigin | src/views/unit_diagrams.py:47-59 | every pair of the first loop comes from a call of a listed function |
| UnitDiagrams.InPairOrigin | src/views/unit_diagrams.py:61-73 | every pair of the second loop comes from a caller of a listed function |
| UnitDiagrams.CallDrawn | src/views/unit_diagrams.py:47-59 | a call from a listed function to a known function of another unit with a non-empty interface id is an outgoing edge carrying that id |
| UnitDiagrams.CallerDrawn | src/views/unit_diagrams.py:61-73 | a call into a listed function with a non-empty interface id from a known function of another unit is an incoming edge carrying that id |
| UnitDiagrams.CollectEdges | src/views/unit_diagrams.py:46-73 | the two loops compute the collected edge map |
| UnitDiagrams.OutEdges | src/views/unit_diagrams.py:47-59 | the first loop collects the outgoing pairs |
| UnitDiagrams.AddCalleeEdges | src/views/unit_diagrams.py:51-59 | the loop over `callsIds` adds the pairs of one function's callees |
| UnitDiagrams.InEdges | src/views/unit_diagrams.py:61-73 | the second loop collects the incoming pairs |
| UnitDiagrams.InStep | src/views/unit_diagrams.py:61-73 | a function without data or interface id adds no pair |
| UnitDiagrams.AddCallerEdges | src/views/unit_diagrams.py:68-73 | the loop over `calledByIds` adds the pairs of one function's callers |
| UnitDiagrams.SameModuleInMeaning | src/views/unit_diagrams.py:77-82 | a node id is in `same_mod` exactly when some unit of the module has it |
| UnitDiagrams.SameModule | src/views/unit_diagrams.py:77-82 | the loop computes `same_mod` |
| UnitDiagrams.PartitionOf | src/views/unit_diagrams.py:83-86 | callers split by module, callees that are not callers split by module, each list sorted |
| UnitDiagrams.PartitionCovers | src/views/unit_diagrams.py:83-86 | the four lists are pairwise disjoint and together hold the callers and the callees that are not callers |
| UnitDiagrams.ExtraLines | src/views/unit_diagrams.py:88-89 | the edge count clamped to 2..12 |
| UnitDiagrams.BuildUnitDiagram | src/views/unit_diagrams.py:38-106 | nothing for a unit whose file name does not end in ".cpp"; else a "flowchart LR" diagram with the collected edges, `same_mod`, the partition of its neighbours and the clamped padding |
| UnitDiagrams.NoSelfEdge | src/views/unit_diagrams.py:53-73 | every edge joins this unit's box to the box of a known unit other than this unit |
| Flowcharts.SafeFilename | fake_flowchart_generator.py:29-31 | same length as the name ("" for None), with no unsafe character left |
| Flowcharts.SafeFilenameOfSafe | fake_flowchart_generator.py:29-31 | a name without unsafe characters is unchanged |
| Flowcharts.SafeFilenameKeeps | fake_flowchart_generator.py:29-31 | safe characters stay in place |
| Flowcharts.SafeFilenameStable | fake_flowchart_generator.py:29-31 | a safe name is its own safe name |
| Flowcharts.KeyOfParts | fake_flowchart_generator.py:34-39 | two separator-free parts joined by the separator split back into them |
| Flowcharts.UnitKeyOfId | fake_flowchart_generator.py:34-39 | the id up to its second separator, or "unknown\|unknown"; the key always has two separator-free parts |
| Flowcharts.UnitKeyIdempotent | fake_flowchart_generator.py:34-39 | the unit key of a unit key is itself |
| Flowcharts.BuildFlowchartIsSample | fake_flowchart_generator.py:20-50 | every function gets the sample Mermaid flowchart less its final newline |
| Flowcharts.QualifiedFallback | fake_flowchart_generator.py:66 | without a qualified name, a function of a three-segment id is named by the segment after its unit key |
| Flowcharts.SimplePart | fake_flowchart_generator.py:68 | the simple name never holds "::" |
| Flowcharts.SimpleNameMeaning | fake_flowchart_generator.py:68 | a simple name is stripped and holds no "::" |
| Flowcharts.GroupByUnit | fake_flowchart_generator.py:63-72 | the units are the unit keys of the ids, each listing its functions' entries in input order |
| Flowcharts.UnitFileNameTail | fake_flowchart_generator.py:79 | the file name is the separator-free tail of the key |
| Flowcharts.OutputName | fake_flowchart_generator.py:77-79 | the output file name is safe |
| Flowcharts.OutputNameShape | fake_flowchart_generator.py:77-79 | the output name is the safe unit name followed by ".json" |
| Flowcharts.SharedOutputName | fake_flowchart_generator.py:76-79 | units "app\|main" and "lib\|main" are written to the same "main.json" |
| Flowcharts.WriteUnits | fake_flowchart_generator.py:76-82 | one write per unit, in ascending key order, to its output name with its entries |
| Flowcharts.Run | fake_flowchart_generator.py:53-82 | group, then one write per unit key in ascending order with that unit's entries |
| AnalyzerReport.ListedFunctions | analyzer.py:282-286 | a module's functions are records of its keys that are recorded functions, at most one per key |
| AnalyzerReport.ModuleSpec | analyzer.py:277-287 | a modules.json entry carries its module's name |
| AnalyzerReport.ModuleSpecLinks | analyzer.py:252-281 | caller (callee) modules are strictly sorted, never the module itself, and exactly the other modules holding a caller (callee) of one of its recorded functions |
| AnalyzerReport.LinkedModulesMeaning | analyzer.py:257-275 | a module is collected exactly when it is another module holding a linked function |
| AnalyzerReport.CollectModulesOf | analyzer.py:263-267 | the inner loop adds the modules of one function's callers (callees) other than this module |
| AnalyzerReport.CollectLinkedModules | analyzer.py:257-275 | the loop over a module's functions collects its caller (callee) modules |
| AnalyzerReport.LinkedModulesStep | analyzer.py:257-275 | a key that is not a recorded function adds nothing |
| AnalyzerReport.ModuleEntry | analyzer.py:249-288 | one pass of the module loop builds the specified entry |
| AnalyzerReport.ModulesData | analyzer.py:247-288 | one entry per module, in strictly sorted module order, each as specified |
| AnalyzerReport.ModuleEntries | analyzer.py:248-288 | the loop builds the entries of the sorted names in order |
| AnalyzerReport.ComponentsData | analyzer.py:331-342 | one component per module entry, with its caller modules as incoming, callee modules as outgoing and its functions' names |
| AnalyzerReport.ComponentsExcludeSelf | analyzer.py:331-342 | a component never lists itself as incoming or outgoing |
| AnalyzerReport.ValuesAt | analyzer.py:291 | the records of the keys, in key order |
| AnalyzerReport.FunctionList | analyzer.py:291 | `functions_list` has one record per function key |
| AnalyzerReport.InFile | analyzer.py:301 | the records whose id names the file, at most all of them |
| AnalyzerReport.InFileMember | analyzer.py:301 | `funcs_in_file` keeps exactly the records of the file |
| AnalyzerReport.FileSpec | analyzer.py:306-313 | a files.json entry carries its path |
| AnalyzerReport.FileSpecNames | analyzer.py:312 | functionNames are strictly sorted and exactly the qualified names of the functions whose id names the file |
| AnalyzerReport.FileNamesMeaning | analyzer.py:301-312 | a name is listed exactly when a recorded function of the file has it |
| AnalyzerReport.FileNameSound | analyzer.py:301-312 | a listed name belongs to a recorded function of the file |
| AnalyzerReport.FileNameComplete | analyzer.py:301-312 | every recorded function of the file has its name listed |
| AnalyzerReport.FileCountIsKeyCount | analyzer.py:311 | counting list entries of a file counts its function keys |
| AnalyzerReport.InFileCount | analyzer.py:301-311 | the length of `funcs_in_file` is the count of keys of the file |
| AnalyzerReport.FileSpecCount | analyzer.py:301-311 | functionCount is the number of function keys whose id part before the last ":" is the path |
| AnalyzerReport.FileListCount | analyzer.py:291-311 | the records of a file are as many as its function keys |
| AnalyzerReport.FilePartsMeaning | analyzer.py:295-298 | a path is a file part exactly when some function id names it |
| AnalyzerReport.FilePartListed | analyzer.py:295-298 | every function's file part is listed |
| AnalyzerReport.FilesData | analyzer.py:295-313 | one entry per distinct file part, strictly sorted, each as specified |
| AnalyzerReport.FileMaker | analyzer.py:306-313 | the entry built for a path carries that path |
| AnalyzerReport.FileEntries | analyzer.py:300-313 | the loop builds the entries of the sorted paths in order |
| DocxCells.OrDash | src/docx_exporter.py:76-94 | never empty; a non-empty value is kept |
| DocxCells.DataTypeCell | src/docx_exporter.py:77-82 | empty only for a function with parameters whose types are empty |
| DocxCells.DataRangeCell | src/docx_exporter.py:77-83 | "-" for a global and for a function without parameters |
| DocxCells.DataTypeCellLists | src/docx_exporter.py:82 | a function's Data Type cell splits back into its parameter types, in order |
| DocxCells.DataRangeCellLists | src/docx_exporter.py:83 | a function's Data Range cell splits back into its parameter ranges, in order |
| DocxCells.DirectionCell | src/docx_exporter.py:85-92 | "In" with callers only, "Out" with callees only, "In/Out" with both, "-" with neither |
| DocxCells.SourceDestinationCell | src/docx_exporter.py:93 | "-" exactly when there are no callers and no callees |
| DocxCells.DirectionAgreesWithEnds | src/docx_exporter.py:85-93 | the direction is "-" exactly when the source/destination is |
| DocxCells.RowOf | src/docx_exporter.py:75-108 | information, type, direction and source/destination are never empty; a global's range is "-"; direction and ends agree |
| DocxCells.ModuleAndHeading | src/docx_exporter.py:58-65 | the module has no "/", and module, "/" and heading give the unit name back |
| DocxCells.ByModule | src/docx_exporter.py:51-60 | the modules are those of the grouped list entries, each with its units in file order |
| DocxCells.GroupMember | src/docx_exporter.py:52-60 | a module's group holds a unit exactly when the file has that unit as a list and it belongs to the module |
| DocxCells.SectionOf | src/docx_exporter.py:63-66 | one table per unit of the module |
| DocxCells.Document | src/docx_exporter.py:62-66 | one section per module, each built from its group |
| DocxCells.DocumentSorted | src/docx_exporter.py:62 | sections come in strictly increasing module order, one per module |
| DocxCells.SectionHasUnit | src/docx_exporter.py:64-66 | every unit of a module has its table in the module's section |
| DocxCells.ExportDocx | src/docx_exporter.py:23-113 | paths default when empty; without the docx library, or with a missing tables file, (False, None); with both, success naming the document path |
| LlmClient.JoinedAppend | src/llm_client.py:35 | joining two line lists is joining each and concatenating |
| LlmClient.SourceText | src/llm_client.py:30-35 | the text is stripped, and "" for a start below 1, an end before the start or a start past the end of the file |
| LlmClient.SourceTextInFile | src/llm_client.py:33-35 | whatever range is asked for, the text is a piece of the file |
| LlmClient.SourceTextOneLine | src/llm_client.py:33-35 | a range of one line is that line, stripped |
| LlmClient.SourceTextClamped | src/llm_client.py:34 | an end line past the end of the file reads to the last line |
| LlmClient.ExtractSource | src/llm_client.py:18-35 | raises exactly when the location has no "file"; an unreadable file gives ""; else the stripped text of lines "line" (default 1) to "endLine" (default the start) |
| LlmClient.PromptQuotesSource | src/llm_client.py:64-85 | every prompt quotes its source in full |
| LlmClient.GetDescription | src/llm_client.py:60-71 | "" for empty source whatever the server would answer; else the answer to the description prompt |
| LlmClient.GetFlowchart | src/llm_client.py:74-95 | "" for empty source whatever the server would answer; else the reply to the flowchart prompt as the fence scan cuts it |
| LlmClient.ExtractFence | src/llm_client.py:88-95 | the scan loop computes the as-written fence scan |
| LlmClient.ScanFromShape | src/llm_client.py:90-95 | the scan gives back the reply whole or a stripped part |
| LlmClient.FenceAsWrittenShape | src/llm_client.py:88-95 | a reply without a fence comes back whole; otherwise the result is the reply or a stripped part |
| LlmClient.FenceAsWrittenUntagged | src/llm_client.py:88-94 | a fence without a language tag around a diagram gives back that body, stripped |
| LlmClient.NoFenceInside | src/llm_client.py:89 | text without a backtick has no fence starting inside it |
| LlmClient.TaggedBlockParts | src/llm_client.py:89 | a tagged block splits into the prose, the tagged body and "" |
| LlmClient.FenceAsWrittenLosesCode | src/llm_client.py:88-95 | a reply that is exactly one "mermaid"-tagged fence gives "" |
| LlmClient.GetFlowchartOfTaggedBlock | src/llm_client.py:74-95 | through `get_flowchart`, a reply that is one tagged fence gives "" |
| LlmClient.CodeOf | src/llm_client.py:88-94 | the code of a part is stripped |
| LlmClient.MermaidScanShape | src/llm_client.py:88-95 | the intended scan gives back the reply whole or stripped code |
| LlmClient.MermaidCodeShape | src/llm_client.py:88-95 | with the intended scan an unfenced reply comes back whole, else the result is stripped code |
| LlmClient.TaggedBodyCode | src/llm_client.py:88-94 | the body of a tagged fence holds code, and it is the code that was tagged |
| LlmClient.MermaidCodeOfTaggedBlock | src/llm_client.py:88-95 | the intended scan gives back exactly the code of a tagged fence after prose without code |
| LlmClient.MermaidScanSecond | src/llm_client.py:90-94 | past a first part without code, a second part with code is picked |
| LlmClient.MakersApply | src/llm_client.py:118-128 | the loop's source and entry makers are `ExtractSource` and the entry of a source |
| LlmClient.EnrichedFailureSticks | src/llm_client.py:111-129 | once the loop has raised, it has raised for the whole list |
| LlmClient.RecordEntry | src/llm_client.py:119-128 | the description replaces the entry, and the flowchart is set in it, creating it if need be |
| LlmClient.EnrichStep | src/llm_client.py:111-129 | one pass skips the record, raises, or records its entry |
| LlmClient.EnrichFunctionsWithLlm | src/llm_client.py:98-130 | the loop over the records computes the enrichment map, or raises |
| LlmClient.EnrichedFails | src/llm_client.py:111-129 | the loop raises exactly when a record it does not skip has a location whose source raises |
| LlmClient.EnrichFails | src/llm_client.py:111-129 | the enrichment raises exactly when a record it does not skip has a location without "file" |
| LlmClient.EnrichedKeys | src/llm_client.py:109-128 | the ids with an entry are those of the records not skipped (an id with ":" and a non-empty location), none when both parts are off |
| LlmClient.EnrichedValues | src/llm_client.py:119-128 | every entry is the entry of some source |
| LlmClient.EnrichSwitchedOff | src/llm_client.py:119-128 | a switched-off part stays "" in every entry |
| LlmClient.EnrichedLastWins | src/llm_client.py:111-129 | the last record with an id decides its entry |
| Views.Enabled | src/views/__init__.py:9-14 | an unmentioned view runs exactly when it is "interfaceTables"; a mentioned one exactly when its value is not `false` |
| Views.OnlyFalseDisables | src/views/__init__.py:11-14 | `null`, `true` and any other value switch a mentioned view on; only `false` switches it off |
| Views.RunViews | src/views/__init__.py:5-16 | the views run are the enabled registry entries, in registry order |
| Views.KeptDistinct | src/views/__init__.py:8-16 | filtering a list without repeats gives a list without repeats |
| Views.KeptInOrder | src/views/__init__.py:8-16 | two kept elements come in the order of their positions in the list |
| Views.RunViewsMeaning | src/views/__init__.py:5-16 | with registry names distinct (dictionary keys), exactly the enabled views run, each once, in registry order |
| Views.DefaultOnly | src/views/__init__.py:7-14 | without a "views" section only "interfaceTables" runs, if registered |
| Ordering.SortSet | src/generator.py:47 | `sorted(set)` lists exactly the elements of the set, each once |
| Ordering.SortSetSorted | src/generator.py:47 | `sorted(set)` is strictly increasing |
| Ordering.SortDedup | analyzer.py:312 | `sorted(set(xs))` is strictly increasing and holds exactly the elements of xs |
| Ordering.SortedUnique | analyzer.py:280-281 | a strictly increasing list is determined by its elements, so set iteration order never shows in a sorted list |
| Ordering.InsertByKey | src/generator.py:148 | inserting after every element of no larger key keeps the list sorted by key and adds exactly that element |
| Ordering.SortByKey | src/generator.py:148 | `sorted(xs, key=...)` is sorted by key and a permutation of xs |
| Ordering.InsertByKeyKept | src/generator.py:148 | insertion puts the element after every element of its key |
| Ordering.SortByKeyStable | src/generator.py:148 | the sort is stable: the elements of each key come out in input order |
| Ordering.KeptSorted | src/interface_tables.py:28-30 | dropping elements keeps a list sorted by key |
| Grouping.Having | src/generator.py:107 | the elements of a key are exactly the elements with that key |
| Grouping.GroupBy | src/generator.py:142-145 | `defaultdict(list)` grouping: one group per key present, each the elements of that key in list order |
| Grouping.HavingCount | src/generator.py:142-145 | each element of a key occurs in its group as often as in the list |
| Grouping.Kept | src/interface_tables.py:29-30 | a filter keeps exactly the elements that pass |
| Grouping.KeptAll | src/interface_tables.py:29-30 | a filter that keeps everything keeps the list as it is |
| Grouping.Present | src/views/interface_tables.py:39-40 | the ids the loop goes on with are exactly the listed ids the data has |
| Grouping.ImageIn | src/generator.py:146-149 | one value per id, read from the dictionary |
| Grouping.Image | src/docx_exporter.py:82-83 | `[f(p) for p in params]`: one image per element, in order |
| Grouping.GroupWhere | src/docx_exporter.py:51-60 | a `setdefault(...).append` grouping of the kept elements: one group per key present, each the values of its elements in order |
| Text.FirstSegmentUnique | src/utils.py:15-16 | the text before the first separator is determined by the text: a module name is a well-defined value |
| Text.Split | src/utils.py:15 | `s.split(c)` never gives an empty list |
| Text.JoinSplit | src/utils.py:15 | joining the parts with the separator gives the text back |
| Text.SplitPartsFree | src/utils.py:15 | no part holds the separator |
| Text.SplitOn | src/llm_client.py:89 | `s.split(sep)` never gives an empty list |
| Text.SplitOnAfter | src/llm_client.py:89 | text before the first separator is the first part |
| Text.StripIdempotent | src/llm_client.py:35 | `strip()` is idempotent |
| Text.RSplitOnce | src/generator.py:144 | `rsplit(c, 1)`: one part exactly when `c` does not occur, and then the text itself |
| Text.RSplitOnceParts | src/generator.py:144 | two parts are the text before and after the last `c` |
| Text.RSplitOnceJoined | src/generator.py:144 | splitting a + c + b where b lacks c gives [a, b] |
| Text.Lower | src/utils.py:28 | lower-casing keeps the length and maps every character |
| Text.Upper | src/generator.py:166 | upper-casing keeps the length and maps every character |
| Text.Pad2 | src/generator.py:167 | `f"{n:02d}"` is all digits, exactly two with a leading "0" below 10, and the plain decimal spelling from 10 on |
| Text.Pad2Value | src/generator.py:167 | the padded digits read back as the number |
| Text.ParseDigits | src/interface_tables.py:28 | plain decimal digits parse to their value |
| Text.ParseNatString | src/interface_tables.py:28 | the decimal spelling of a number parses back to it |
| Text.BasenameIsSuffix | src/generator.py:166 | the base name holds no separator, ends the path and follows a separator unless it is the whole path |
| Text.Splitext | src/interface_tables.py:8-13 | `os.path.splitext`: the parts join back to the path, and the extension starts with its only dot |
| Text.TrailingInt | src/interface_tables.py:28 | no line number for an id without ":" |
| Text.StripExtMeaning | src/interface_tables.py:8-13 | only the last extension goes, and a name without one is unchanged |
| Records.StripFile | src/interface_tables.py:32-34 | the copy keeps line and end line, has a file exactly when the original does, and loses at most a final dot-led extension of it |

## Left out

- Text.Lower: folds ASCII letters only, where Python's `lower()` folds all of Unicode; `Text.Upper` likewise.
- Text.Strip: strips a fixed set of ASCII whitespace characters (`Text.IsSpace`), where Python's `strip()` strips all Unicode whitespace.
- Text.ParseInt: accepts only ASCII whitespace (as `Text.Strip` removes it), an optional sign and ASCII digits. Python's `int()` also accepts underscores between digits (`"1_0"`) and Unicode digits. This decides when `GeneratorInterfaces.InterfaceTable` and `InterfaceTables.SortedRows` report the `ValueError` that `int()` raises.
- LlmClient.Model: the server is a deterministic function from prompt to reply. Time-outs, HTTP errors, a missing `requests` package and the logging to stderr all collapse into the reply `""`, which is what `_call_ollama` returns in each of these cases (src/llm_client.py:38-57).
- LlmClient.LineStart: treats `"line": null` like a missing key and gives 1, where `int(None)` raises `TypeError`; `LlmClient.LineEnd` does the same for `"endLine"`. `InterfaceViews` likewise reads a null field as a missing one.
- ModelDeriver.LineField: a record whose `"location"` is `null` is read as an empty location. The source then raises `AttributeError` in the sort key at src/model_deriver.py:66, which it reaches only when the base path ends in `.cpp`/`.cc`/`.cxx`. `ModelDeriver.FileField` and `ModelDeriver.FilePath` read such a record the same way.
- Generator.FunctionsList: a `Generator.FnIn` record always has a name, a file and a line. The source raises `KeyError` when a function record lacks `"location"`, `"file"`, `"line"` or `"name"` (src/generator.py:35-39); the model does not reach that error.
- GeneratorInterfaces.ItemsOf: a `Generator.FnIn` or `Generator.GlobIn` record always has an id. The source raises `KeyError` when a record lacks `"id"` (src/generator.py:138-140); the model does not reach that error.
- ModelDeriver.FunctionDirection: reads `"direction": null` like a missing key and gives "In". The source calls `.strip()` on `None` there and raises `AttributeError` (src/model_deriver.py:190).
- ModelDeriver.NormalizeParams: reads `"parameters": null` like a missing key, through `ModelDeriver.RawParams`, and gives the `params` list or `[]`. The source iterates over `None` there and raises `TypeError` (src/model_deriver.py:148-149).
- ModelDeriver.NormalizeParam: reads `"name": null` or `"type": null` like a missing key and gives `""`. The source keeps the `None` (src/model_deriver.py:149).
- InterfaceTables.BuildInterfaceTables: returns a map, so the insertion order of the output dictionary (the tables in `units_data` order) is not modelled.
- InterfaceViews.BuildInterfaceTables: returns a map, so the key order of the output dictionary (`unitNames` first, then the tables in unit order) is not modelled.
- DocxCells.ExportDocx: drops the exceptions of `json.load` on a malformed file and of `int(docxFontSize)` on a non-numeric font size. It computes the sections and cells, not the document, its fonts or its file.
- Scripts.Analysis.PopulateRelationships: the name lists are filled from Python sets, whose iteration order is not defined. The model pins only their contents, not their order.
- `_enrich_from_llm` in src/model_deriver.py: not modelled, because it only copies LLM descriptions into records.
- `_call_ollama` (src/llm_client.py:38-57): the HTTP request is not modelled; it is folded into `LlmClient.Model`.
- libclang (index parsing, configuration, diagnostics): not modelled. The parsed translation units are given as a sequence of `Cursors.Cursor` trees.
- `os.walk` and file discovery: not modelled; the files are given in the order found.
- JSON reading and writing, `os.makedirs`, file existence checks and console output: not modelled. Inputs and outputs are Dafny maps and sequences, and a missing input file is an `Option`.
- Rendering: not modelled. This covers the Mermaid text of the unit diagram after its preamble (the node, padding and edge lines), the calls to `mmdc`, `src/views/flowcharts.py` and `src/views/behaviour_diagram.py`.
- `fake_behaviour_diagram_generator.py`: not modelled, because it draws random counts.
- The pipeline drivers (`run.py`, `src/run_views.py`) and the registry module: not modelled. `Views.RunViews` takes the registry as the sequence of its view names.
- The `generatedAt` timestamp of `src/parser.py`: not modelled.
- OS path semantics: not modelled. The functions are parameters of the model. The Windows `ValueError` of `relpath` is a `None` result of `Paths.Os.relpath`, and the code's fallback for it is modelled.
- Global read/write direction inference and a data dictionary: not modelled. No shown code implements them, and direction is only the clean-up of src/model_deriver.py:188-194.

## Findings

| source | as written | input that shows it | evidently intended | confidence | as-written member | corrected member |
|---|---|---|---|---|---|---|
| src/llm_client.py:88-95 | the scan returns the part after the first part that mentions "mermaid", and for a reply that is one tagged fence that part is the empty text after the closing fence | the reply "```mermaid\nflowchart TD\nA-->B\n```" gives "" | the code inside the "mermaid"-tagged fence | not executed | LlmClient.FenceAsWrittenLosesCode | LlmClient.MermaidCodeOfTaggedBlock |
| src/utils.py:29-31 | the void test runs before the qualifiers are removed, so a qualified void misses it and then matches no integer family | "const void" gives "NA", while "void" gives "VOID" | "VOID" for a qualified void, because qualifiers are otherwise ignored | not executed | Paths.QualifiedVoidIsNA | Paths.GetRangeForTypeIntended |
| src/views/unit_diagrams.py:26-28 | `KEY_SEP` and spaces both become "_", next to the underscores already in the key | the unit keys "m\|a b" and "m\|a_b" get the one node id "m_a_b", so two units share one box | a distinct Mermaid node per unit key | not executed | UnitDiagrams.PartIdsCollide | UnitDiagrams.UnitPartIdIntended |

`LlmClient.GetFlowchart` and `Paths.GetRangeForType` follow the code as written. `LlmClient.MermaidCode` is the intended scan. `Paths.IntendedIgnoresQualifier` shows that the intended range table ignores the qualifiers, void included. `UnitDiagrams.PartIdIntendedInjective` shows that the intended node ids never collide, and `UnitDiagrams.PartIdIntendedAgrees` shows that they agree with the as-written ids on plain keys.
