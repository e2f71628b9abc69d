/** The content of the Word export of the interface tables: the units of the
    tables file grouped by module, a heading per unit, and the eight cell texts
    of the row of each interface. Building the document itself is left to the
    document library and is not modelled. */
module DocxCells {
  import opened Wrappers
  import opened Text
  import opened Ordering
  import opened Records
  import Grouping

  /** One interface object of a unit's list, key by key. A text key that is
      missing or null is "", a list key that is missing is empty. */
  datatype Interface = Interface(
    kind: string,
    variableType: string,
    parameters: seq<Param>,
    callerUnits: seq<string>,
    calleesUnits: seq<string>,
    description: string,
    interfaceId: string,
    interfaceName: string)

  /** The eight cells of a table row, in column order. */
  datatype Row = Row(
    interfaceId: string,
    interfaceName: string,
    information: string,
    dataType: string,
    dataRange: string,
    direction: string,
    sourceDestination: string,
    interfaceType: string)

  const GlobalVariable: string := "globalVariable"
  const Dash: string := "-"
  const ListSep: string := "; "

  /** `value or "-"` for a text value. */
  function OrDash(s: string): (r: string)
    ensures r != ""
    ensures s != "" ==> r == s
  {
    if s == "" then Dash else s
  }

  /** `p.get(key, "")` */
  function Get(p: Param, key: string): string {
    if key in p then p[key] else ""
  }

  function TypeOfParam(p: Param): string {
    Get(p, "type")
  }

  function RangeOfParam(p: Param): string {
    Get(p, "range")
  }

  /** The Interface Type cell. */
  function TypeCell(i: Interface): string {
    OrDash(i.kind)
  }

  /** The Data Type cell: a global's variable type, or the parameter types of a
      function joined by "; ", "-" standing in for a missing value. */
  function DataTypeCell(i: Interface): (r: string)
    ensures r != "" || (TypeCell(i) != GlobalVariable && i.parameters != [])
  {
    if TypeCell(i) == GlobalVariable then OrDash(i.variableType)
    else if i.parameters == [] then Dash
    else Join(Grouping.Image(i.parameters, TypeOfParam), ListSep)
  }

  /** The Data Range cell: "-" for a global, else the parameter ranges of a
      function joined by "; ", or "-" when it has none. */
  function DataRangeCell(i: Interface): (r: string)
    ensures TypeCell(i) == GlobalVariable ==> r == Dash
    ensures i.parameters == [] ==> r == Dash
  {
    if TypeCell(i) == GlobalVariable then Dash
    else if i.parameters == [] then Dash
    else Join(Grouping.Image(i.parameters, RangeOfParam), ListSep)
  }

  /** A function's Data Type cell lists its parameter types in order, one per
      "; "-separated field, as long as no type holds a ';'. */
  lemma DataTypeCellLists(i: Interface)
    requires TypeCell(i) != GlobalVariable && i.parameters != []
    requires forall k :: 0 <= k < |i.parameters| ==> ';' !in TypeOfParam(i.parameters[k])
    ensures SplitOn(DataTypeCell(i), ListSep) == Grouping.Image(i.parameters, TypeOfParam)
  {
    SplitOnJoin(Grouping.Image(i.parameters, TypeOfParam), ListSep);
  }

  /** A function's Data Range cell lists its parameter ranges in order, one per
      "; "-separated field, as long as no range holds a ';'. */
  lemma DataRangeCellLists(i: Interface)
    requires TypeCell(i) != GlobalVariable && i.parameters != []
    requires forall k :: 0 <= k < |i.parameters| ==> ';' !in RangeOfParam(i.parameters[k])
    ensures SplitOn(DataRangeCell(i), ListSep) == Grouping.Image(i.parameters, RangeOfParam)
  {
    SplitOnJoin(Grouping.Image(i.parameters, RangeOfParam), ListSep);
  }

  /** The Direction cell: "In" for an interface with callers, "Out" for one with
      callees, "In/Out" for both and "-" for neither. */
  function DirectionCell(callers: seq<string>, callees: seq<string>): (r: string)
    ensures r == (if callers != [] && callees != [] then "In/Out"
                  else if callers != [] then "In"
                  else if callees != [] then "Out"
                  else Dash)
  {
    var dirs := (if callers != [] then ["In"] else []) + (if callees != [] then ["Out"] else []);
    if dirs == [] then Dash
    else
      assert |dirs| == 2 ==> dirs == ["In", "Out"] && dirs[1..] == ["Out"];
      assert Join(["In", "Out"], "/") == "In" + "/" + "Out" == "In/Out";
      Join(dirs, "/")
  }

  /** The Source/Destination cell: the caller and callee units, or "-" when
      there are none. */
  function SourceDestinationCell(callers: seq<string>, callees: seq<string>): (r: string)
    ensures r == Dash <==> callers == [] && callees == []
  {
    if callers != [] || callees != [] then
      var r := "Source: " + Join(callers, ", ") + "; Dest: " + Join(callees, ", ");
      assert r[0] == 'S';
      r
    else Dash
  }

  /** The two cells agree: the direction is "-" exactly when the source and
      destination are. */
  lemma DirectionAgreesWithEnds(callers: seq<string>, callees: seq<string>)
    ensures DirectionCell(callers, callees) == Dash <==> SourceDestinationCell(callers, callees) == Dash
  {
  }

  /** The row of one interface. Every cell but the id, the name and the data
      cells is non-empty. */
  function RowOf(i: Interface): (r: Row)
    ensures r.information != "" && r.interfaceType != ""
    ensures r.direction != "" && r.sourceDestination != ""
    ensures r.interfaceType == GlobalVariable ==> r.dataRange == Dash && r.dataType != ""
    ensures r.direction == Dash <==> r.sourceDestination == Dash
  {
    Row(i.interfaceId, i.interfaceName, OrDash(i.description),
        DataTypeCell(i), DataRangeCell(i),
        DirectionCell(i.callerUnits, i.calleesUnits),
        SourceDestinationCell(i.callerUnits, i.calleesUnits),
        TypeCell(i))
  }

  // ------------------------------------------------------------ grouping

  /** A top-level value of the tables file: a unit's list of interfaces, or
      anything else. */
  datatype TopValue = Interfaces(items: seq<Interface>) | NotAList

  /** A top-level key and its value, in file order. */
  type Entry = (string, TopValue)

  /** The entries that are grouped: unit lists, not the two metadata keys. */
  predicate Grouped(e: Entry) {
    e.0 != "basePath" && e.0 != "projectName" && e.1.Interfaces?
  }

  /** `unit_name.split("/", 1)[0]` */
  function ModuleOf(unitName: string): string {
    Split(unitName, '/')[0]
  }

  /** The unit heading: `unit_name.split("/", 1)[1]` when there is a "/", the
      whole name otherwise. */
  function HeadingOf(unitName: string): string {
    SplitFirst(unitName, '/');
    if '/' in unitName then unitName[|ModuleOf(unitName)| + 1..] else unitName
  }

  /** The module is the text before the first "/", and module, "/" and heading
      give the unit name back; a name without "/" is its own module and heading. */
  lemma ModuleAndHeading(unitName: string)
    ensures '/' !in ModuleOf(unitName)
    ensures '/' in unitName ==> unitName == ModuleOf(unitName) + "/" + HeadingOf(unitName)
    ensures '/' !in unitName ==> ModuleOf(unitName) == unitName == HeadingOf(unitName)
  {
    SplitFirst(unitName, '/');
    var m := ModuleOf(unitName);
    if '/' in unitName {
      var i :| 0 <= i < |unitName| && unitName[i] == '/';
      assert i >= |m|;
      assert unitName == m + "/" + unitName[|m| + 1..];
    } else {
      assert |m| == |unitName|;
    }
  }

  function ModKey(e: Entry): string {
    ModuleOf(e.0)
  }

  function UnitVal(e: Entry): (string, seq<Interface>) {
    (e.0, if e.1.Interfaces? then e.1.items else [])
  }

  /** The `by_module` loop: for each module, the unit names and interface lists
      of its grouped entries, in file order. */
  method ByModule(data: seq<Entry>) returns (m: map<string, seq<(string, seq<Interface>)>>)
    ensures forall k :: k in m <==> exists e :: e in data && Grouped(e) && ModuleOf(e.0) == k
    ensures forall k :: k in m ==>
      m[k] == Grouping.Image(Grouping.Having(Grouping.Kept(data, Grouped), ModKey, k), UnitVal)
  {
    m := Grouping.GroupWhere(data, Grouped, ModKey, UnitVal);
  }

  /** A module's group holds a unit and its list exactly when the file has that
      unit list and the unit belongs to the module. */
  lemma GroupMember(data: seq<Entry>, k: string, u: string, items: seq<Interface>)
    ensures (u, items) in Grouping.Image(Grouping.Having(Grouping.Kept(data, Grouped), ModKey, k), UnitVal)
        <==> (u, Interfaces(items)) in data && Grouped((u, Interfaces(items))) && ModuleOf(u) == k
  {
    var h := Grouping.Having(Grouping.Kept(data, Grouped), ModKey, k);
    var img := Grouping.Image(h, UnitVal);
    var e: Entry := (u, Interfaces(items));
    if (u, items) in img {
      var j :| 0 <= j < |img| && img[j] == (u, items);
      assert h[j] in h;
      assert h[j] == e;
    }
    if e in data && Grouped(e) && ModuleOf(u) == k {
      assert e in h;
      var j :| 0 <= j < |h| && h[j] == e;
      assert img[j] == (u, items);
    }
  }

  // ------------------------------------------------------------ document outline

  /** A unit's table: its heading and one row per interface. */
  datatype Table = Table(heading: string, rows: seq<Row>)

  /** A module's section: its heading and the tables of its units. */
  datatype Section = Section(moduleName: string, tables: seq<Table>)

  function UnitNames(group: seq<(string, seq<Interface>)>): set<string> {
    set k | 0 <= k < |group| :: group[k].0
  }

  /** The interface list of the first pair of a group named `u`. */
  function ItemsOf(group: seq<(string, seq<Interface>)>, u: string): seq<Interface>
    decreases |group|
  {
    if group == [] then []
    else if group[0].0 == u then group[0].1
    else ItemsOf(group[1..], u)
  }

  function TableOf(group: seq<(string, seq<Interface>)>, u: string): Table {
    Table(HeadingOf(u), Grouping.Image(ItemsOf(group, u), RowOf))
  }

  /** `sorted(by_module[module_name])`, unit names being distinct. */
  function SectionOf(group: seq<(string, seq<Interface>)>, moduleName: string): (r: Section)
    ensures |r.tables| == |UnitNames(group)|
  {
    var names := SortSet(UnitNames(group));
    Section(moduleName, seq(|names|, j requires 0 <= j < |names| => TableOf(group, names[j])))
  }

  /** The sections in `sorted(by_module.keys())` order. */
  function Document(m: map<string, seq<(string, seq<Interface>)>>): (r: seq<Section>)
    ensures |r| == |m.Keys|
    ensures forall j :: 0 <= j < |r| ==> r[j].moduleName in m && r[j] == SectionOf(m[r[j].moduleName], r[j].moduleName)
  {
    var modules := SortSet(m.Keys);
    seq(|modules|, j requires 0 <= j < |modules| => SectionOf(m[modules[j]], modules[j]))
  }

  /** The sections come in strictly increasing module order, one per module. */
  lemma DocumentSorted(m: map<string, seq<(string, seq<Interface>)>>)
    ensures StrictlySorted(Grouping.Image(Document(m), (s: Section) => s.moduleName))
    ensures forall k :: k in m <==> exists j :: 0 <= j < |Document(m)| && Document(m)[j].moduleName == k
  {
    var modules := SortSet(m.Keys);
    SortSetSorted(m.Keys);
    assert Grouping.Image(Document(m), (s: Section) => s.moduleName) == modules;
    forall k | k in m
      ensures exists j :: 0 <= j < |Document(m)| && Document(m)[j].moduleName == k
    {
      var j :| 0 <= j < |modules| && modules[j] == k;
      assert Document(m)[j].moduleName == k;
    }
  }

  /** Every unit of a module has its table in the module's section. */
  lemma SectionHasUnit(group: seq<(string, seq<Interface>)>, moduleName: string, u: string)
    requires u in UnitNames(group)
    ensures TableOf(group, u) in SectionOf(group, moduleName).tables
  {
    var names := SortSet(UnitNames(group));
    var j :| 0 <= j < |names| && names[j] == u;
    assert SectionOf(group, moduleName).tables[j] == TableOf(group, u);
  }

  // ------------------------------------------------------------ export result

  /** `export_docx(json_path, docx_path)` without the document itself: the
      paths default when empty; a missing tables file or a missing document
      library gives (False, None), anything else (True, the document path). */
  function ExportDocx(isFile: string -> bool, libraryInstalled: bool,
                      jsonPath: string, docxPath: string,
                      defaultJson: string, defaultDocx: string): (r: (bool, Option<string>))
    ensures r.0 <==> r.1.Some?
    ensures !isFile(if jsonPath == "" then defaultJson else jsonPath) ==> r == (false, None)
    ensures r.0 ==> r.1.value == (if docxPath == "" then defaultDocx else docxPath)
    ensures !libraryInstalled ==> r == (false, None)
    ensures isFile(if jsonPath == "" then defaultJson else jsonPath) && libraryInstalled ==>
      r == (true, Some(if docxPath == "" then defaultDocx else docxPath))
  {
    var json := if jsonPath == "" then defaultJson else jsonPath;
    var docx := if docxPath == "" then defaultDocx else docxPath;
    if !isFile(json) then (false, None)
    else if !libraryInstalled then (false, None)
    else (true, Some(docx))
  }
}
