/** The flat interface-table builder (`build_interface_tables`): one table per
    `.cpp` unit, keyed by the unit name without its extension, listing the
    unit's functions and then its global variables, each group ordered by the
    line number at the end of its id. */
module InterfaceTables {
  import opened Wrappers
  import opened Text
  import opened Ordering
  import opened Grouping
  import opened Records

  /** A unit as this builder reads it: its function and global-variable ids. */
  datatype UnitInfo = UnitInfo(functions: seq<string>, globalVariables: seq<string>)

  /** A function or global-variable record; a missing string key is None and a
      missing list is empty. */
  datatype Interface = Interface(
    interfaceId: Option<string>,
    interfaceName: Option<string>,
    name: Option<string>,
    qualifiedName: Option<string>,
    location: Location,
    parameters: seq<Param>,
    typeName: Option<string>,
    direction: Option<string>,
    callerUnits: seq<string>,
    calleesUnits: seq<string>,
    description: Option<string>)

  /** A table row: `"type": "function"` or `"type": "globalVariable"`. */
  datatype Entry =
    | FunctionEntry(
        interfaceId: string, interfaceName: string, name: string, qualifiedName: string,
        location: Location, parameters: seq<Param>, direction: string,
        callerUnits: seq<string>, calleesUnits: seq<string>, description: Option<string>)
    | GlobalEntry(
        interfaceId: string, interfaceName: string, name: string, qualifiedName: string,
        location: Location, variableType: string, direction: string,
        callerUnits: seq<string>, calleesUnits: seq<string>)

  /** The unit names of a caller or callee list, each without its extension. */
  function StripAll(us: seq<string>, seps: set<char>): seq<string> {
    Image(us, (u: string) => StripExt(u, seps))
  }

  /** The row of a function record. */
  function FunctionEntryOf(f: Interface, seps: set<char>): Entry {
    FunctionEntry(
      f.interfaceId.GetOr(""), f.interfaceName.GetOr(""), f.name.GetOr(""),
      f.qualifiedName.GetOr(""), StripFile(f.location, seps), f.parameters,
      f.direction.GetOr("-"), StripAll(f.callerUnits, seps), StripAll(f.calleesUnits, seps),
      if f.description.Some? && f.description.value != "" then f.description else None)
  }

  /** The row of a global-variable record. */
  function GlobalEntryOf(g: Interface, seps: set<char>): Entry {
    GlobalEntry(
      g.interfaceId.GetOr(""), g.interfaceName.GetOr(""), g.name.GetOr(""),
      g.qualifiedName.GetOr(""), StripFile(g.location, seps), g.typeName.GetOr(""),
      g.direction.GetOr("-"), StripAll(g.callerUnits, seps), StripAll(g.calleesUnits, seps))
  }

  /** Every row carries the record's fields: the location's file loses only its
      extension and its line is kept, each caller and callee unit loses only its
      extension and the lists keep their order, a missing direction is "-", and
      an empty description is dropped. */
  lemma EntryFields(f: Interface, seps: set<char>)
    ensures var e := FunctionEntryOf(f, seps);
      e.location.line == f.location.line &&
      (f.location.file.Some? ==> e.location.file.Some? && e.location.file.value <= f.location.file.value) &&
      |e.callerUnits| == |f.callerUnits| && |e.calleesUnits| == |f.calleesUnits| &&
      (forall j :: 0 <= j < |f.callerUnits| ==> e.callerUnits[j] <= f.callerUnits[j]) &&
      (forall j :: 0 <= j < |f.calleesUnits| ==> e.calleesUnits[j] <= f.calleesUnits[j]) &&
      (f.direction.None? ==> e.direction == "-") &&
      (e.description.Some? <==> f.description.Some? && f.description.value != "")
    ensures var e := GlobalEntryOf(f, seps);
      e.location.line == f.location.line &&
      (f.location.file.Some? ==> e.location.file.Some? && e.location.file.value <= f.location.file.value) &&
      |e.callerUnits| == |f.callerUnits| && |e.calleesUnits| == |f.calleesUnits| &&
      (f.direction.None? ==> e.direction == "-")
  {
    forall u {:trigger StripExt(u, seps)} ensures StripExt(u, seps) <= u {
      StripExtMeaning(u, seps);
    }
  }

  // ------------------------------------------------------------- one unit

  /** The sort key `int(x.rsplit(":", 1)[1])`, read only when every id has one. */
  function IdKey(): string -> int {
    (id: string) => TrailingInt(id).GetOr(0)
  }

  /** No sort key raises. */
  predicate KeysParse(ids: seq<string>) {
    forall i :: 0 <= i < |ids| ==> TrailingInt(ids[i]).Some?
  }

  /** The row of one record, a global-variable row or a function row. */
  function RowOf(rec: Interface, seps: set<char>, global: bool): Entry {
    if global then GlobalEntryOf(rec, seps) else FunctionEntryOf(rec, seps)
  }

  /** The row builder of one of the unit's loops. */
  function RowMaker(seps: set<char>, global: bool): (string, Interface) -> Entry {
    (id: string, rec: Interface) => RowOf(rec, seps, global)
  }

  /** The rows built from `ids`, every one of which the data has. */
  function Rows(ids: seq<string>, data: map<string, Interface>, seps: set<char>, global: bool): (r: seq<Entry>)
    requires forall id :: id in ids ==> id in data
    ensures |r| == |ids|
    ensures forall j :: 0 <= j < |ids| ==> r[j] == RowOf(data[ids[j]], seps, global)
  {
    ImageIn(ids, data, RowMaker(seps, global))
  }

  /** `sorted(ids, key=...)` followed by the rows of the ids the data has, or
      None where a sort key raises. */
  function SortedRows(seps: set<char>, ids: seq<string>, data: map<string, Interface>,
                      global: bool): (r: Option<seq<Entry>>)
    ensures r.None? <==> !KeysParse(ids)
  {
    if !KeysParse(ids) then None
    else Some(Rows(Present(SortByKey(ids, IdKey()), data), data, seps, global))
  }

  /** The rows of one unit, or None where a sort key raises. */
  function EntriesSpec(seps: set<char>, info: UnitInfo, fns: map<string, Interface>,
                       gvs: map<string, Interface>): (r: Option<seq<Entry>>)
    ensures r.None? <==> !KeysParse(info.functions) || !KeysParse(info.globalVariables)
  {
    match SortedRows(seps, info.functions, fns, false)
    case None => None
    case Some(front) =>
      match SortedRows(seps, info.globalVariables, gvs, true)
      case None => None
      case Some(back) => Some(front + back)
  }

  /** The two loops of one unit: function rows in id-line order, then global
      rows in id-line order, skipping ids the data does not have. */
  method UnitEntries(seps: set<char>, info: UnitInfo, fns: map<string, Interface>,
                     gvs: map<string, Interface>) returns (r: Option<seq<Entry>>)
    ensures r == EntriesSpec(seps, info, fns, gvs)
  {
    if !KeysParse(info.functions) {
      return None;
    }
    var sf := SortByKey(info.functions, IdKey());
    var front := AppendPresent(sf, fns, RowMaker(seps, false), []);
    assert front == Rows(Present(sf, fns), fns, seps, false);
    assert SortedRows(seps, info.functions, fns, false) == Some(front);
    if !KeysParse(info.globalVariables) {
      return None;
    }
    var sg := SortByKey(info.globalVariables, IdKey());
    var entries := AppendPresent(sg, gvs, RowMaker(seps, true), front);
    var back := Rows(Present(sg, gvs), gvs, seps, true);
    assert entries == front + back;
    assert SortedRows(seps, info.globalVariables, gvs, true) == Some(back);
    r := Some(entries);
  }

  /** The rows of one sorted list are those of its present ids, ordered by the
      line at the end of the id; an id the data lacks has no row, and every id
      it has, has one. */
  lemma SortedRowsShape(seps: set<char>, ids: seq<string>, data: map<string, Interface>, global: bool)
    requires KeysParse(ids)
    ensures var p := Present(SortByKey(ids, IdKey()), data);
      var rs := SortedRows(seps, ids, data, global);
      rs.Some? && |rs.value| == |p| &&
      SortedByKey(p, IdKey()) &&
      (forall id :: id in p <==> id in ids && id in data) &&
      (forall j :: 0 <= j < |p| ==>
         rs.value[j] == RowOf(data[p[j]], seps, global))
  {
    var sorted := SortByKey(ids, IdKey());
    KeptSorted(sorted, (id: string) => id in data, IdKey());
    forall id ensures id in sorted <==> id in ids {
      assert id in sorted <==> id in multiset(sorted);
    }
  }

  /** A unit's rows are its function rows followed by its global rows, each as
      `SortedRowsShape` describes. */
  lemma EntriesShape(seps: set<char>, info: UnitInfo, fns: map<string, Interface>,
                     gvs: map<string, Interface>)
    requires KeysParse(info.functions) && KeysParse(info.globalVariables)
    ensures var front := SortedRows(seps, info.functions, fns, false);
      var back := SortedRows(seps, info.globalVariables, gvs, true);
      front.Some? && back.Some? &&
      EntriesSpec(seps, info, fns, gvs) == Some(front.value + back.value) &&
      (forall e :: e in front.value ==> e.FunctionEntry?) &&
      (forall e :: e in back.value ==> e.GlobalEntry?)
  {
    SortedRowsShape(seps, info.functions, fns, false);
    SortedRowsShape(seps, info.globalVariables, gvs, true);
  }

  /** Function rows come first, then global rows. */
  lemma FunctionsBeforeGlobals(seps: set<char>, info: UnitInfo, fns: map<string, Interface>,
                               gvs: map<string, Interface>, i: nat, j: nat)
    requires EntriesSpec(seps, info, fns, gvs).Some?
    requires i < j < |EntriesSpec(seps, info, fns, gvs).value|
    requires EntriesSpec(seps, info, fns, gvs).value[i].GlobalEntry?
    ensures EntriesSpec(seps, info, fns, gvs).value[j].GlobalEntry?
  {
    EntriesShape(seps, info, fns, gvs);
  }

  // ------------------------------------------------------------ all units

  predicate IsCppName(unitName: string) {
    EndsWith(unitName, ".cpp")
  }

  /** The rows of a unit, as `UnitEntries` computes them. */
  function RowsOf(seps: set<char>, fns: map<string, Interface>, gvs: map<string, Interface>)
    : UnitInfo -> Option<seq<Entry>>
  {
    (info: UnitInfo) => EntriesSpec(seps, info, fns, gvs)
  }

  /** The tables after the first `n` units, given each unit's rows (None where a
      sort key raises, which ends the build). */
  function TablesOver(seps: set<char>, units: seq<(string, UnitInfo)>,
                      rowsOf: UnitInfo -> Option<seq<Entry>>, n: nat): Option<map<string, seq<Entry>>>
    requires n <= |units|
  {
    if n == 0 then Some(map[])
    else
      match TablesOver(seps, units, rowsOf, n - 1)
      case None => None
      case Some(t) =>
        var (unitName, info) := units[n - 1];
        if !IsCppName(unitName) then Some(t)
        else
          match rowsOf(info)
          case None => None
          case Some(es) => Some(t[StripExt(unitName, seps) := es])
  }

  /** `build_interface_tables` over the units in dictionary order. */
  method BuildInterfaceTables(seps: set<char>, units: seq<(string, UnitInfo)>,
                              fns: map<string, Interface>, gvs: map<string, Interface>)
    returns (r: Option<map<string, seq<Entry>>>)
    ensures r == TablesOver(seps, units, RowsOf(seps, fns, gvs), |units|)
  {
    ghost var rowsOf := RowsOf(seps, fns, gvs);
    var tables: map<string, seq<Entry>> := map[];
    var i := 0;
    while i < |units|
      invariant 0 <= i <= |units|
      invariant TablesOver(seps, units, rowsOf, i) == Some(tables)
    {
      var (unitName, info) := units[i];
      if IsCppName(unitName) {
        var entries := UnitEntries(seps, info, fns, gvs);
        assert rowsOf(info) == entries;
        if entries.None? {
          assert TablesOver(seps, units, rowsOf, i + 1) == None;
          NoneStays(seps, units, rowsOf, i + 1);
          return None;
        }
        tables := tables[StripExt(unitName, seps) := entries.value];
      }
      i := i + 1;
    }
    r := Some(tables);
  }

  /** Once a unit's rows have failed, the build has failed. */
  lemma {:induction false} NoneStays(seps: set<char>, units: seq<(string, UnitInfo)>,
                                     rowsOf: UnitInfo -> Option<seq<Entry>>, n: nat)
    requires 1 <= n <= |units| && TablesOver(seps, units, rowsOf, n) == None
    ensures TablesOver(seps, units, rowsOf, |units|) == None
    decreases |units| - n
  {
    if n < |units| {
      NoneStays(seps, units, rowsOf, n + 1);
    }
  }

  /** The build fails exactly when the rows of some `.cpp` unit fail (with
      `RowsOf`: when some id of such a unit has no number after its last ":"). */
  lemma {:induction false} TablesFail(seps: set<char>, units: seq<(string, UnitInfo)>,
                                      rowsOf: UnitInfo -> Option<seq<Entry>>, n: nat)
    requires n <= |units|
    ensures TablesOver(seps, units, rowsOf, n).None? <==>
      exists i :: 0 <= i < n && IsCppName(units[i].0) && rowsOf(units[i].1).None?
  {
    if n > 0 {
      TablesFail(seps, units, rowsOf, n - 1);
    }
  }

  /** A table exists exactly for the extension-stripped name of each `.cpp`
      unit. */
  lemma {:induction false} TableKeys(seps: set<char>, units: seq<(string, UnitInfo)>,
                                     rowsOf: UnitInfo -> Option<seq<Entry>>, n: nat)
    requires n <= |units| && TablesOver(seps, units, rowsOf, n).Some?
    ensures forall key :: key in TablesOver(seps, units, rowsOf, n).value <==>
      exists i :: 0 <= i < n && IsCppName(units[i].0) && StripExt(units[i].0, seps) == key
  {
    if n > 0 {
      TableKeys(seps, units, rowsOf, n - 1);
    }
  }

  /** The table under a key holds the rows of the last `.cpp` unit with that
      stripped name: a later unit overwrites an earlier one. */
  lemma {:induction false} TableOfLastUnit(seps: set<char>, units: seq<(string, UnitInfo)>,
                                           rowsOf: UnitInfo -> Option<seq<Entry>>, n: nat, i: nat)
    requires i < n <= |units| && TablesOver(seps, units, rowsOf, n).Some?
    requires IsCppName(units[i].0)
    requires forall k :: i < k < n && IsCppName(units[k].0) ==>
      StripExt(units[k].0, seps) != StripExt(units[i].0, seps)
    ensures rowsOf(units[i].1).Some?
    ensures StripExt(units[i].0, seps) in TablesOver(seps, units, rowsOf, n).value
    ensures TablesOver(seps, units, rowsOf, n).value[StripExt(units[i].0, seps)] == rowsOf(units[i].1).value
  {
    var prev := TablesOver(seps, units, rowsOf, n - 1);
    assert prev.Some?;
    if n - 1 > i {
      TableOfLastUnit(seps, units, rowsOf, n - 1, i);
      var (unitName, info) := units[n - 1];
      if IsCppName(unitName) {
        assert StripExt(unitName, seps) != StripExt(units[i].0, seps);
      }
    }
  }
}
