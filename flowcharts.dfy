/** The per-unit flowchart generator (fake_flowchart_generator.py): function
    ids map to unit keys, every function gets the same sample flowchart under
    its simple name, functions are grouped by unit in input order, and one
    JSON file per unit is written in ascending unit-key order. The functions
    are the ordered `functions.json` dictionary, a sequence of
    (function id, record) pairs; the written files are the sequence of
    (file name, contents) writes. */
module Flowcharts {
  import opened Wrappers
  import opened Text
  import opened Grouping
  import opened Ordering

  /** KEY_SEP */
  const KeySep: char := '|'

  /** The characters `safe_filename` replaces by "_". */
  predicate Unsafe(c: char) {
    c == '<' || c == '>' || c == ':' || c == '"' || c == '/' || c == '\\' || c == '|' || c == '?' || c == '*'
  }

  /** No character of `s` is unsafe. */
  predicate SafeName(s: string) {
    forall i :: 0 <= i < |s| ==> !Unsafe(s[i])
  }

  /** The one field of a function record the generator reads. */
  datatype FunctionData = FunctionData(qualifiedName: Option<string>)

  /** One element of a unit's JSON array. */
  datatype FlowEntry = FlowEntry(name: string, flowchart: string)

  /** `safe_filename`: `None` becomes "", every unsafe character "_". */
  function SafeFilename(s: Option<string>): (r: string)
    ensures |r| == |s.GetOr("")|
    ensures SafeName(r)
  {
    var t := s.GetOr("");
    seq(|t|, i requires 0 <= i < |t| => if Unsafe(t[i]) then '_' else t[i])
  }

  /** A name without unsafe characters is its own safe name. */
  lemma SafeFilenameOfSafe(s: string)
    requires SafeName(s)
    ensures SafeFilename(Some(s)) == s
  {
  }

  /** Safe characters are kept in place. */
  lemma SafeFilenameKeeps(s: string)
    ensures forall i :: 0 <= i < |s| && !Unsafe(s[i]) ==> SafeFilename(Some(s))[i] == s[i]
  {
  }

  /** A safe name is its own safe name. */
  lemma SafeFilenameStable(s: Option<string>)
    ensures SafeFilename(Some(SafeFilename(s))) == SafeFilename(s)
  {
  }

  /** A unit key is made of two separator-free parts. */
  lemma KeyOfParts(a: string, b: string)
    requires KeySep !in a && KeySep !in b
    ensures Split(a + [KeySep] + b, KeySep) == [a, b]
  {
    SplitCons(a, KeySep, b);
    SplitFree(b, KeySep);
  }

  /** `function_id_to_unit_key`: the id up to its second separator, or
      "unknown|unknown" for an id without a separator. Either way the key
      has exactly two separator-free parts. */
  function UnitKeyOfId(fid: string): (r: string)
    ensures |Split(r, KeySep)| == 2
    ensures KeySep in fid ==> r <= fid && (|r| == |fid| || fid[|r|] == KeySep)
    ensures KeySep !in fid ==> r == "unknown" + [KeySep] + "unknown"
  {
    var parts := Split(fid, KeySep);
    SplitCount(fid, KeySep);
    SplitPartsFree(fid, KeySep);
    if |parts| >= 2 then
      KeyOfParts(parts[0], parts[1]);
      JoinSplit(fid, KeySep);
      JoinStartsWithFirst(parts, [KeySep]);
      JoinStartsWithFirst(parts[1..], [KeySep]);
      parts[0] + [KeySep] + parts[1]
    else
      KeyOfParts("unknown", "unknown");
      "unknown" + [KeySep] + "unknown"
  }

  /** The unit key of a unit key is itself. */
  lemma UnitKeyIdempotent(fid: string)
    ensures UnitKeyOfId(UnitKeyOfId(fid)) == UnitKeyOfId(fid)
  {
    var r := UnitKeyOfId(fid);
    var parts := Split(r, KeySep);
    JoinSplit(r, KeySep);
    SplitCount(r, KeySep);
    SplitPartsFree(r, KeySep);
    assert Join(parts, [KeySep]) == parts[0] + [KeySep] + parts[1];
  }

  /** The lines of the sample flowchart. */
  function SampleLines(): seq<string> {
    ["flowchart TD", "    A[Start] --> B{Check}", "    B -->|yes| C[Process]",
     "    B -->|no| D[Skip]", "    C --> E[End]", "    D --> E"]
  }

  /** SAMPLE_FLOWCHART: the sample lines, each ended by a newline. */
  function SampleFlowchart(): string {
    Join(SampleLines(), "\n") + "\n"
  }

  /** `build_flowchart_for_function`: the stripped sample, whatever the function. */
  function BuildFlowchart(f: FunctionData): string {
    Strip(SampleFlowchart())
  }

  /** Every function gets the same Mermaid top-down flowchart: the sample
      less its final newline. */
  lemma BuildFlowchartIsSample(f: FunctionData)
    ensures BuildFlowchart(f) + "\n" == SampleFlowchart()
    ensures StartsWith(BuildFlowchart(f), "flowchart TD")
  {
    var lines := SampleLines();
    var body := Join(lines, "\n");
    JoinStartsWithFirst(lines, "\n");
    JoinEndsWithLast(lines, "\n");
    assert body[0] == lines[0][0];
    assert body[|body| - 1] == lines[5][|lines[5]| - 1];
    StripTrailingNewline(body);
  }

  /** `f.get("qualifiedName") or` the third segment of the id, or the id, or "?". */
  function Qualified(fid: string, f: FunctionData): string {
    if f.qualifiedName.Some? && f.qualifiedName.value != "" then f.qualifiedName.value
    else
      var parts := Split(fid, KeySep);
      if |parts| > 2 then parts[2] else if fid != "" then fid else "?"
  }

  /** Without a qualified name of its own, a function of a three-segment id
      is named by the segment that follows its unit key. */
  lemma QualifiedFallback(fid: string, f: FunctionData)
    requires !(f.qualifiedName.Some? && f.qualifiedName.value != "")
    requires |Split(fid, KeySep)| > 2
    ensures var q := Qualified(fid, f);
            var head := UnitKeyOfId(fid) + [KeySep] + q;
            KeySep !in q && head <= fid && (|head| == |fid| || fid[|head|] == KeySep)
  {
    var parts := Split(fid, KeySep);
    SplitPartsFree(fid, KeySep);
    SplitCount(fid, KeySep);
    JoinSplit(fid, KeySep);
    JoinHead3(parts, KeySep);
    assert UnitKeyOfId(fid) == parts[0] + [KeySep] + parts[1];
  }

  /** The text the simple name strips: the last "::" segment, or the name
      itself ("?" for an empty one). It never holds "::". */
  function SimplePart(q: string): (t: string)
    ensures !Contains(t, "::")
  {
    if Contains(q, "::") then
      var segs := SplitOn(q, "::");
      SplitOnLastFree(q, "::");
      segs[|segs| - 1]
    else if q == "" then
      ContainsShort("?", "::");
      "?"
    else q
  }

  /** The simple name: the last "::" segment, stripped, or the stripped
      name ("?" for an empty one). */
  function SimpleName(q: string): string {
    Strip(SimplePart(q))
  }

  /** A simple name is stripped and holds no "::". */
  lemma SimpleNameMeaning(q: string)
    ensures var r := SimpleName(q); Strip(r) == r && !Contains(r, "::")
  {
    StripClean(SimplePart(q), "::");
  }

  function KeyOf(x: (string, FunctionData)): string {
    UnitKeyOfId(x.0)
  }

  /** The `{name, flowchart}` object of one function. */
  function EntryOf(x: (string, FunctionData)): FlowEntry {
    FlowEntry(SimpleName(Qualified(x.0, x.1)), BuildFlowchart(x.1))
  }

  /** The grouping loop of `run`: the units are the unit keys of the ids, and
      each unit lists the entries of its functions in input order. */
  method GroupByUnit(fns: seq<(string, FunctionData)>) returns (units: map<string, seq<FlowEntry>>)
    ensures forall k :: k in units <==> exists x :: x in fns && UnitKeyOfId(x.0) == k
    ensures forall k :: k in units ==> units[k] == Image(Having(fns, KeyOf, k), EntryOf)
  {
    var keep := (x: (string, FunctionData)) => true;
    units := GroupWhere(fns, keep, KeyOf, EntryOf);
    KeptAll(fns, keep);
  }

  /** `unit_key.split(KEY_SEP)[-1] if KEY_SEP in unit_key else unit_key` */
  function UnitFileName(uk: string): string {
    if KeySep in uk then
      var parts := Split(uk, KeySep);
      parts[|parts| - 1]
    else uk
  }

  /** The file name is the separator-free tail of the unit key. */
  lemma UnitFileNameTail(uk: string)
    ensures KeySep !in UnitFileName(uk) && EndsWith(uk, UnitFileName(uk))
  {
    if KeySep in uk {
      var parts := Split(uk, KeySep);
      SplitPartsFree(uk, KeySep);
      JoinSplit(uk, KeySep);
      JoinEndsWithLast(parts, [KeySep]);
    }
  }

  /** The file a unit is written to: a safe name ending in ".json". */
  function OutputName(uk: string): (r: string)
    ensures SafeName(r)
  {
    var name := SafeFilename(Some(UnitFileName(uk)));
    SafeAppend(name, ".json");
    name + ".json"
  }

  /** Every output name ends in ".json", after the safe unit name. */
  lemma OutputNameShape(uk: string)
    ensures EndsWith(OutputName(uk), ".json")
    ensures OutputName(uk)[..|OutputName(uk)| - 5] == SafeFilename(Some(UnitFileName(uk)))
  {
    var name := SafeFilename(Some(UnitFileName(uk)));
    EndsWithAppend(name, ".json");
    assert (name + ".json")[..|name|] == name;
  }

  lemma SafeAppend(a: string, b: string)
    requires SafeName(a) && SafeName(b)
    ensures SafeName(a + b)
  {
    forall i | 0 <= i < |a + b| ensures !Unsafe((a + b)[i]) {
      if i >= |a| {
        assert (a + b)[i] == b[i - |a|];
      }
    }
  }

  /** The file name is the unit name alone, so units of different modules
      with the same name are written to one file, the later key's contents
      replacing the earlier's. */
  lemma SharedOutputName()
    ensures var app := "app" + [KeySep] + "main";
            var lib := "lib" + [KeySep] + "main";
            app != lib && OutputName(app) == OutputName(lib) == "main" + ".json"
  {
    KeyOfParts("app", "main");
    KeyOfParts("lib", "main");
    SafeFilenameOfSafe("main");
    assert ("app" + [KeySep] + "main")[0] != ("lib" + [KeySep] + "main")[0];
  }

  /** One write: the unit's output name with the unit's entries. */
  function WriteOf(uk: string, entries: seq<FlowEntry>): (string, seq<FlowEntry>) {
    (OutputName(uk), entries)
  }

  /** The writing loop of `run`: one write per unit, in ascending key order,
      to the unit's output name with the unit's entries. */
  method WriteUnits(units: map<string, seq<FlowEntry>>) returns (writes: seq<(string, seq<FlowEntry>)>)
    ensures |writes| == |units|
    ensures forall i :: 0 <= i < |writes| ==>
              SortSet(units.Keys)[i] in units &&
              writes[i] == (OutputName(SortSet(units.Keys)[i]), units[SortSet(units.Keys)[i]])
  {
    var keys := SortSet(units.Keys);
    writes := [];
    var i := 0;
    while i < |keys|
      invariant 0 <= i <= |keys|
      invariant writes == ImageIn(keys[..i], units, WriteOf)
    {
      ImageInSnoc(keys, units, WriteOf, i);
      writes := writes + [WriteOf(keys[i], units[keys[i]])];
      i := i + 1;
    }
    assert keys[..i] == keys;
  }

  /** `run`: group, then write one file per unit in ascending key order. */
  method Run(fns: seq<(string, FunctionData)>) returns (writes: seq<(string, seq<FlowEntry>)>)
    ensures var keys := SortSet(set x | x in fns :: UnitKeyOfId(x.0));
            |writes| == |keys| &&
            forall i :: 0 <= i < |writes| ==>
              writes[i] == (OutputName(keys[i]), Image(Having(fns, KeyOf, keys[i]), EntryOf))
  {
    var units := GroupByUnit(fns);
    assert units.Keys == set x | x in fns :: UnitKeyOfId(x.0);
    writes := WriteUnits(units);
  }
}
