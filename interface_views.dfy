/** The interface-tables view (`_build_interface_tables`): a `unitNames`
    dictionary over every unit, and for each unit whose file is a `.cpp` file a
    table of its functions and then its global variables, each group ordered by
    the line of its location. */
module InterfaceViews {
  import opened Wrappers
  import opened Text
  import opened Ordering
  import opened Grouping
  import opened Records

  const KeySep: char := '|'
  const UnitNamesKey: string := "unitNames"

  /** A unit of the model as the view reads it; a missing key is None or empty. */
  datatype UnitView = UnitView(
    name: Option<string>,
    fileName: Option<string>,
    functionIds: seq<string>,
    globalVariableIds: seq<string>)

  /** A function or global-variable record of the model. */
  datatype Record = Record(
    qualifiedName: Option<string>,
    location: Location,
    calledByIds: seq<string>,
    callsIds: seq<string>,
    parameters: seq<Param>,
    interfaceId: Option<string>,
    direction: Option<string>,
    reason: Option<string>,
    directionReason: Option<string>,
    description: Option<string>,
    typeName: Option<string>)

  /** `short_name` and `get_range` (with the data dictionary already applied)
      are not part of this model. */
  datatype Helpers = Helpers(shortName: string -> string, getRange: string -> string)

  /** A table row: `"type": "Function"` or `"type": "Global Variable"`. */
  datatype Entry =
    | FunctionRow(
        interfaceId: string, functionId: string, interfaceName: string, name: string,
        qualifiedName: string, unitKey: string, unitName: string, location: Location,
        parameters: seq<Param>, direction: string, reason: string,
        callerUnits: seq<string>, calleesUnits: seq<string>, description: Option<string>)
    | GlobalRow(
        interfaceId: string, interfaceName: string, name: string,
        qualifiedName: string, unitKey: string, unitName: string, location: Location,
        variableType: string, range: string, direction: string, reason: string,
        callerUnits: seq<string>, calleesUnits: seq<string>)

  /** A value of the result: the `unitNames` dictionary or a unit's table. */
  datatype TableValue =
    | UnitNames(names: map<string, string>)
    | UnitTable(name: string, entries: seq<Entry>)

  // ------------------------------------------------- function id to units

  /** The units that list `fid`. */
  function UnitsListing(units: map<string, UnitView>, fid: string): set<string> {
    set uk | uk in units && fid in units[uk].functionIds
  }

  /** Every function id some unit lists. */
  function ListedIds(units: map<string, UnitView>): set<string> {
    set uk, fid | uk in units && fid in units[uk].functionIds :: fid
  }

  /** Each listed function id with the set of all units that list it. */
  function FidUnits(units: map<string, UnitView>): (r: map<string, set<string>>)
    ensures r.Keys == ListedIds(units)
    ensures forall fid :: fid in r ==> r[fid] == UnitsListing(units, fid)
  {
    map fid | fid in ListedIds(units) :: UnitsListing(units, fid)
  }

  /** The units among `done` that list `fid`. */
  ghost function ListingIn(units: map<string, UnitView>, done: set<string>, fid: string): set<string> {
    set uk | uk in done && uk in units && fid in units[uk].functionIds
  }

  /** The table after the units in `done`. */
  ghost predicate FilledFor(units: map<string, UnitView>, done: set<string>, out: map<string, set<string>>) {
    (forall fid :: fid in out <==> exists uk :: uk in done && uk in units && fid in units[uk].functionIds) &&
    forall fid :: fid in out ==> out[fid] == ListingIn(units, done, fid)
  }

  /** `_fid_to_unit`: each listed function id with the set of all units that
      list it. */
  method FidToUnits(units: map<string, UnitView>) returns (out: map<string, set<string>>)
    ensures out == FidUnits(units)
  {
    out := map[];
    var todo := units.Keys;
    while todo != {}
      invariant todo <= units.Keys
      invariant FilledFor(units, units.Keys - todo, out)
      decreases todo
    {
      var uk :| uk in todo;
      ghost var before := out;
      out := AddUnit(out, uk, units[uk].functionIds);
      FilledStep(units, units.Keys - todo, uk, before, out);
      assert units.Keys - (todo - {uk}) == (units.Keys - todo) + {uk};
      todo := todo - {uk};
    }
    assert units.Keys - todo == units.Keys;
    var spec := FidUnits(units);
    forall fid ensures fid in out <==> fid in spec {
      if fid in out {
        var uk :| uk in units && fid in units[uk].functionIds;
      }
    }
    forall fid | fid in out ensures out[fid] == spec[fid] {
      assert ListingIn(units, units.Keys, fid) == UnitsListing(units, fid);
    }
  }

  /** The inner loop: `out.setdefault(fid, set()).add(uk)` for each id. */
  method AddUnit(out: map<string, set<string>>, uk: string, ids: seq<string>)
    returns (r: map<string, set<string>>)
    ensures forall fid :: fid in r <==> fid in out || fid in ids
    ensures forall fid :: fid in r ==>
      r[fid] == (if fid in out then out[fid] else {}) + (if fid in ids then {uk} else {})
  {
    r := out;
    var i := 0;
    while i < |ids|
      invariant 0 <= i <= |ids|
      invariant forall fid :: fid in r <==> fid in out || fid in ids[..i]
      invariant forall fid :: fid in r ==>
        r[fid] == (if fid in out then out[fid] else {}) + (if fid in ids[..i] then {uk} else {})
    {
      var fid := ids[i];
      r := r[fid := (if fid in r then r[fid] else {}) + {uk}];
      assert ids[..i + 1] == ids[..i] + [fid];
      i := i + 1;
    }
    assert ids[..i] == ids;
  }

  /** Adding one unit's ids keeps the table right. */
  lemma FilledStep(units: map<string, UnitView>, done: set<string>, uk: string,
                   before: map<string, set<string>>, after: map<string, set<string>>)
    requires uk in units && uk !in done && FilledFor(units, done, before)
    requires forall fid :: fid in after <==> fid in before || fid in units[uk].functionIds
    requires forall fid :: fid in after ==>
      after[fid] == (if fid in before then before[fid] else {}) + (if fid in units[uk].functionIds then {uk} else {})
    ensures FilledFor(units, done + {uk}, after)
  {
    forall fid ensures fid in after <==> exists u :: u in done + {uk} && u in units && fid in units[u].functionIds {
      if fid in after && fid !in units[uk].functionIds {
        assert fid in before;
        var u :| u in done && u in units && fid in units[u].functionIds;
        assert u in done + {uk};
      }
      if fid in units[uk].functionIds {
        assert uk in done + {uk};
      }
    }
    forall fid | fid in after ensures after[fid] == ListingIn(units, done + {uk}, fid) {
      ListingStep(units, done, uk, fid);
      if fid !in before {
        assert ListingIn(units, done, fid) == {};
      }
    }
  }

  lemma ListingStep(units: map<string, UnitView>, done: set<string>, uk: string, fid: string)
    requires uk in units
    ensures ListingIn(units, done + {uk}, fid)
         == ListingIn(units, done, fid) + (if fid in units[uk].functionIds then {uk} else {})
  {
  }

  // ---------------------------------------------------------- unit names

  /** `u.get("name", last KEY_SEP segment of the key, or the key)` */
  function DisplayName(uk: string, u: UnitView): string {
    var parts := Split(uk, KeySep);
    u.name.GetOr(if KeySep in uk then parts[|parts| - 1] else uk)
  }

  /** The `unitNames` dictionary: every unit with its display name. */
  function UnitNamesOf(units: map<string, UnitView>): (r: map<string, string>)
    ensures r.Keys == units.Keys
  {
    map uk | uk in units :: DisplayName(uk, units[uk])
  }

  /** A unit without a name of its own is shown by the last segment of its key:
      text of the key that holds no separator and ends it. */
  lemma DisplayNameOfKey(uk: string, u: UnitView)
    requires u.name.None?
    ensures KeySep !in DisplayName(uk, u) && EndsWith(uk, DisplayName(uk, u))
  {
    var parts := Split(uk, KeySep);
    SplitPartsFree(uk, KeySep);
    JoinSplit(uk, KeySep);
    JoinEndsWithLast(parts, [KeySep]);
  }

  // ---------------------------------------------------------- row fields

  /** The interface name: `FILECODE_name` when both are non-empty, else
      whichever is non-empty, else "". */
  function InterfaceName(fileCode: string, name: string): (r: string) {
    if fileCode != "" && name != "" then fileCode + "_" + name
    else if name != "" then name
    else fileCode
  }

  /** The interface name is empty only when both parts are, starts with the file
      code and ends with the short name. */
  lemma InterfaceNameParts(fileCode: string, name: string)
    ensures var r := InterfaceName(fileCode, name);
      (r == "" <==> fileCode == "" && name == "") &&
      StartsWith(r, fileCode) && EndsWith(r, name) &&
      (fileCode != "" && name != "" ==> |r| == |fileCode| + 1 + |name| && r[|fileCode|] == '_')
  {
    var r := InterfaceName(fileCode, name);
    if fileCode != "" && name != "" {
      assert r[|r| - |name|..] == name;
      assert r[..|fileCode|] == fileCode;
    }
  }

  /** `os.path.splitext(os.path.basename(file or ""))[0].upper()` */
  function FileCode(loc: Location, seps: set<char>): string {
    Upper(Splitext(Basename(loc.file.GetOr(""), seps), seps).0)
  }

  /** `x or y or ""` over optional strings. */
  function FirstNonEmpty(x: Option<string>, y: Option<string>): string {
    if x.Some? && x.value != "" then x.value
    else if y.Some? && y.value != "" then y.value
    else ""
  }

  /** The non-empty units of the given callers or callees. */
  function UnitsOf(ids: seq<string>, f2u: map<string, set<string>>): set<string> {
    set cid, u | cid in ids && cid in f2u && u in f2u[cid] && u != "" :: u
  }

  /** `sorted({u for cid in ids for u in fid_to_unit.get(cid, []) if u})`: each
      non-empty unit listing one of the ids, once, in order; the row's own unit
      is not left out. */
  function SortedUnits(ids: seq<string>, f2u: map<string, set<string>>): (r: seq<string>)
    ensures StrictlySorted(r)
    ensures forall u :: u in r <==> u != "" && exists cid :: cid in ids && cid in f2u && u in f2u[cid]
  {
    SortSetSorted(UnitsOf(ids, f2u));
    SortSet(UnitsOf(ids, f2u))
  }

  /** `{**p, "range": get_range(p.get("type", ""), dd)}` */
  function WithRange(p: Param, h: Helpers): (r: Param)
    ensures r.Keys == p.Keys + {"range"}
    ensures forall k :: k in p && k != "range" ==> r[k] == p[k]
    ensures r["range"] == h.getRange(if "type" in p then p["type"] else "")
  {
    p["range" := h.getRange(if "type" in p then p["type"] else "")]
  }

  /** The unit a row belongs to and the context its fields are computed in. */
  datatype Context = Context(
    unitKey: string, unitName: string, f2u: map<string, set<string>>, h: Helpers, seps: set<char>)

  /** The row of a function. */
  function FunctionRowOf(c: Context, fid: string, f: Record): Entry {
    var qn := f.qualifiedName.GetOr("");
    var name := c.h.shortName(qn);
    var loc := StripFile(f.location, c.seps);
    FunctionRow(
      f.interfaceId.GetOr(""), fid, InterfaceName(FileCode(loc, c.seps), name), name, qn,
      c.unitKey, c.unitName, loc, Image(f.parameters, (p: Param) => WithRange(p, c.h)),
      f.direction.GetOr("-"), FirstNonEmpty(f.reason, f.directionReason),
      SortedUnits(f.calledByIds, c.f2u), SortedUnits(f.callsIds, c.f2u),
      if f.description.Some? && f.description.value != "" then f.description else None)
  }

  /** The row of a global variable. */
  function GlobalRowOf(c: Context, g: Record): Entry {
    var qn := g.qualifiedName.GetOr("");
    var name := c.h.shortName(qn);
    var loc := StripFile(g.location, c.seps);
    var t := g.typeName.GetOr("");
    GlobalRow(
      g.interfaceId.GetOr(""), InterfaceName(FileCode(loc, c.seps), name), name, qn,
      c.unitKey, c.unitName, loc, t, c.h.getRange(t), g.direction.GetOr("-"),
      FirstNonEmpty(g.reason, g.directionReason), [], [])
  }

  /** A function row names the function, its unit and the units of its callers
      and callees; each parameter keeps its keys and gains a range; a missing
      direction is "-". A global row has no caller or callee units. */
  lemma RowFields(c: Context, fid: string, f: Record)
    ensures var e := FunctionRowOf(c, fid, f);
      e.functionId == fid && e.unitKey == c.unitKey && e.location.line == f.location.line &&
      |e.parameters| == |f.parameters| &&
      (forall j :: 0 <= j < |f.parameters| ==>
         e.parameters[j].Keys == f.parameters[j].Keys + {"range"} &&
         forall k :: k in f.parameters[j] && k != "range" ==> e.parameters[j][k] == f.parameters[j][k]) &&
      (forall u :: u in e.callerUnits <==>
         u != "" && exists cid :: cid in f.calledByIds && cid in c.f2u && u in c.f2u[cid]) &&
      (forall u :: u in e.calleesUnits <==>
         u != "" && exists cid :: cid in f.callsIds && cid in c.f2u && u in c.f2u[cid]) &&
      (f.direction.None? ==> e.direction == "-")
    ensures var e := GlobalRowOf(c, f);
      e.callerUnits == [] && e.calleesUnits == [] && e.unitKey == c.unitKey &&
      e.location.line == f.location.line && (f.direction.None? ==> e.direction == "-")
  {
  }

  // --------------------------------------------------------- one unit

  /** The sort key `data.get(x, {}).get("location", {}).get("line", 0)`. */
  function LineKeyIn(data: map<string, Record>): string -> int {
    (id: string) => if id in data then LineOr0(data[id].location) else 0
  }

  /** The row of one id, a global-variable row or a function row. */
  function RowOf(c: Context, id: string, rec: Record, global: bool): Entry {
    if global then GlobalRowOf(c, rec) else FunctionRowOf(c, id, rec)
  }

  /** The row builder of one of a unit's loops. */
  function RowMaker(c: Context, global: bool): (string, Record) -> Entry {
    (id: string, rec: Record) => RowOf(c, id, rec, global)
  }

  /** The rows of ids every one of which the data has. */
  function Rows(c: Context, ids: seq<string>, data: map<string, Record>, global: bool): (r: seq<Entry>)
    requires forall id :: id in ids ==> id in data
    ensures |r| == |ids|
    ensures forall j :: 0 <= j < |ids| ==> r[j] == RowOf(c, ids[j], data[ids[j]], global)
  {
    ImageIn(ids, data, RowMaker(c, global))
  }

  /** The rows of a list sorted by line, skipping the ids the data lacks. */
  function SortedRows(c: Context, ids: seq<string>, data: map<string, Record>, global: bool): seq<Entry> {
    Rows(c, Present(SortByKey(ids, LineKeyIn(data)), data), data, global)
  }

  /** The context of a unit's rows. */
  function ContextOf(uk: string, u: UnitView, f2u: map<string, set<string>>, h: Helpers,
                     seps: set<char>): Context {
    Context(uk, DisplayName(uk, u), f2u, h, seps)
  }

  /** The rows of a unit: its functions, then its global variables. */
  function EntriesOf(uk: string, u: UnitView, fns: map<string, Record>, gvs: map<string, Record>,
                     f2u: map<string, set<string>>, h: Helpers, seps: set<char>): seq<Entry> {
    var c := ContextOf(uk, u, f2u, h, seps);
    SortedRows(c, u.functionIds, fns, false) + SortedRows(c, u.globalVariableIds, gvs, true)
  }

  /** The two loops of one unit. */
  method UnitEntries(uk: string, u: UnitView, fns: map<string, Record>, gvs: map<string, Record>,
                     f2u: map<string, set<string>>, h: Helpers, seps: set<char>) returns (r: seq<Entry>)
    ensures r == EntriesOf(uk, u, fns, gvs, f2u, h, seps)
  {
    var c := ContextOf(uk, u, f2u, h, seps);
    var sf := SortByKey(u.functionIds, LineKeyIn(fns));
    var front := AppendPresent(sf, fns, RowMaker(c, false), []);
    assert front == Rows(c, Present(sf, fns), fns, false);
    var sg := SortByKey(u.globalVariableIds, LineKeyIn(gvs));
    r := AppendPresent(sg, gvs, RowMaker(c, true), front);
    assert r == front + Rows(c, Present(sg, gvs), gvs, true);
  }

  /** The rows of one list are those of its ids the data has, ascending by the
      line of their location; an id the data lacks has no row, and every id it
      has, has one. */
  lemma SortedRowsShape(c: Context, ids: seq<string>, data: map<string, Record>, global: bool)
    ensures var p := Present(SortByKey(ids, LineKeyIn(data)), data);
      var rs := SortedRows(c, ids, data, global);
      |rs| == |p| &&
      (forall id :: id in p <==> id in ids && id in data) &&
      (forall i, j :: 0 <= i < j < |rs| ==> LineOr0(rs[i].location) <= LineOr0(rs[j].location)) &&
      (forall j :: 0 <= j < |p| ==>
         rs[j] == RowOf(c, p[j], data[p[j]], global))
  {
    var sorted := SortByKey(ids, LineKeyIn(data));
    var p := Present(sorted, data);
    KeptSorted(sorted, (id: string) => id in data, LineKeyIn(data));
    forall id ensures id in sorted <==> id in ids {
      assert id in sorted <==> id in multiset(sorted);
    }
    var rs := SortedRows(c, ids, data, global);
    forall j | 0 <= j < |p| ensures LineOr0(rs[j].location) == LineKeyIn(data)(p[j]) {
      RowLine(c, p[j], data, global);
    }
  }

  /** A row sits at the line of its record's location. */
  lemma RowLine(c: Context, id: string, data: map<string, Record>, global: bool)
    requires id in data
    ensures LineOr0(RowOf(c, id, data[id], global).location) == LineKeyIn(data)(id)
  {
  }

  /** Function rows come first, then global rows. */
  lemma FunctionsBeforeGlobals(uk: string, u: UnitView, fns: map<string, Record>, gvs: map<string, Record>,
                               f2u: map<string, set<string>>, h: Helpers, seps: set<char>, i: nat, j: nat)
    requires i < j < |EntriesOf(uk, u, fns, gvs, f2u, h, seps)|
    requires EntriesOf(uk, u, fns, gvs, f2u, h, seps)[i].GlobalRow?
    ensures EntriesOf(uk, u, fns, gvs, f2u, h, seps)[j].GlobalRow?
  {
    var c := ContextOf(uk, u, f2u, h, seps);
    SortedRowsShape(c, u.functionIds, fns, false);
    SortedRowsShape(c, u.globalVariableIds, gvs, true);
  }

  // ------------------------------------------------------------- result

  /** `(unit_info.get("fileName") or "").endswith(".cpp")` */
  predicate IsCppUnit(u: UnitView) {
    EndsWith(u.fileName.GetOr(""), ".cpp")
  }

  /** The keys of the `.cpp` units. */
  function CppKeys(units: map<string, UnitView>): (r: set<string>)
    ensures forall k :: k in r <==> k in units && IsCppUnit(units[k])
  {
    set k | k in units && IsCppUnit(units[k])
  }

  /** The tables `_build_interface_tables` writes for the `.cpp` units. */
  function WantedTables(units: map<string, UnitView>, fns: map<string, Record>, gvs: map<string, Record>,
                        f2u: map<string, set<string>>, h: Helpers, seps: set<char>): map<string, TableValue>
  {
    map k | k in units && IsCppUnit(units[k]) :: UnitTable(DisplayName(k, units[k]), EntriesOf(k, units[k], fns, gvs, f2u, h, seps))
  }

  /** The result after the units in `done`: the wanted table of each processed
      unit in `cpp`, and `names` under "unitNames" unless such a unit took it. */
  ghost predicate Filled<V>(done: set<string>, cpp: set<string>, want: map<string, V>, names: V, result: map<string, V>)
  {
    (forall k :: k in result <==> k == UnitNamesKey || k in done * cpp) &&
    (forall k :: k in done * cpp ==> k in want && result[k] == want[k]) &&
    (UnitNamesKey !in done * cpp ==> result[UnitNamesKey] == names)
  }

  /** One step of the loop: a processed unit adds its wanted table, if any. */
  lemma FillStep<V>(done: set<string>, cpp: set<string>, want: map<string, V>, names: V,
                    result: map<string, V>, uk: string, v: V)
    requires Filled(done, cpp, want, names, result)
    requires cpp <= want.Keys && uk !in done
    requires uk in cpp ==> v == want[uk]
    ensures Filled(done + {uk}, cpp, want, names, if uk in cpp then result[uk := v] else result)
  {
    assert (done + {uk}) * cpp == if uk in cpp then done * cpp + {uk} else done * cpp;
  }

  /** `_build_interface_tables`: tables exist exactly for the `.cpp` units, and
      `unitNames` covers every unit unless a `.cpp` unit is itself keyed
      "unitNames", whose table then takes its place. */
  method BuildInterfaceTables(units: map<string, UnitView>, fns: map<string, Record>,
                              gvs: map<string, Record>, h: Helpers, seps: set<char>)
    returns (result: map<string, TableValue>)
    ensures forall k :: k in result <==> k == UnitNamesKey || (k in units && IsCppUnit(units[k]))
    ensures forall k :: k in units && IsCppUnit(units[k]) ==>
      result[k] == UnitTable(DisplayName(k, units[k]), EntriesOf(k, units[k], fns, gvs, FidUnits(units), h, seps))
    ensures !(UnitNamesKey in units && IsCppUnit(units[UnitNamesKey])) ==>
      result[UnitNamesKey] == UnitNames(UnitNamesOf(units)) && result[UnitNamesKey].names.Keys == units.Keys
  {
    var f2u := FidToUnits(units);
    result := FillTables(units, fns, gvs, f2u, h, seps);
  }

  /** Moving one key from `todo` to `done` keeps them complementary. */
  lemma TodoStep(keys: set<string>, done: set<string>, todo: set<string>, uk: string)
    requires todo <= keys && done == keys - todo && uk in todo
    ensures todo - {uk} <= keys && done + {uk} == keys - (todo - {uk}) && uk !in done
  {
  }

  /** The loop over the units of `_build_interface_tables`. */
  method FillTables(units: map<string, UnitView>, fns: map<string, Record>, gvs: map<string, Record>,
                    f2u: map<string, set<string>>, h: Helpers, seps: set<char>)
    returns (result: map<string, TableValue>)
    ensures Filled(units.Keys, CppKeys(units), WantedTables(units, fns, gvs, f2u, h, seps),
                   UnitNames(UnitNamesOf(units)), result)
  {
    ghost var want := WantedTables(units, fns, gvs, f2u, h, seps);
    ghost var cpp := CppKeys(units);
    assert cpp <= want.Keys;
    var names := UnitNames(UnitNamesOf(units));
    result := map[UnitNamesKey := names];
    ghost var done: set<string> := {};
    var todo := units.Keys;
    while todo != {}
      invariant todo <= units.Keys && done == units.Keys - todo
      invariant Filled(done, cpp, want, names, result)
      decreases todo
    {
      var uk :| uk in todo;
      ghost var prev := result;
      var v := TableFor(units, fns, gvs, f2u, h, seps, uk);
      if IsCppUnit(units[uk]) {
        result := result[uk := v];
      }
      FillStep(done, cpp, want, names, prev, uk, v);
      TodoStep(units.Keys, done, todo, uk);
      done := done + {uk};
      todo := todo - {uk};
    }
  }

  /** The table of one unit, as the loop body builds it for a `.cpp` unit. */
  method TableFor(units: map<string, UnitView>, fns: map<string, Record>, gvs: map<string, Record>,
                  f2u: map<string, set<string>>, h: Helpers, seps: set<char>, uk: string)
    returns (v: TableValue)
    requires uk in units
    ensures uk in CppKeys(units) ==>
              uk in WantedTables(units, fns, gvs, f2u, h, seps) &&
              v == WantedTables(units, fns, gvs, f2u, h, seps)[uk]
  {
    v := UnitNames(map[]);
    if IsCppUnit(units[uk]) {
      var entries := UnitEntries(uk, units[uk], fns, gvs, f2u, h, seps);
      v := UnitTable(DisplayName(uk, units[uk]), entries);
    }
  }
}
