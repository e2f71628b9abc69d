/** The parts of the analyser's JSON records that the table, diagram and
    enrichment stages read from a `location` object. */
module Records {
  import opened Wrappers
  import opened Text

  /** A `location` object; a missing key is None, and a missing or empty object
      has every key missing. */
  datatype Location = Location(file: Option<string>, line: Option<int>, endLine: Option<int>)

  /** No key is present: the object is falsy. */
  predicate IsEmpty(loc: Location) {
    loc.file.None? && loc.line.None? && loc.endLine.None?
  }

  /** A parameter object, key by key. */
  type Param = map<string, string>

  /** `loc = dict(loc); if loc.get("file"): loc["file"] = _strip_ext(loc["file"])`:
      a copy whose non-empty file loses its extension and which is otherwise the
      same. */
  function StripFile(loc: Location, seps: set<char>): (r: Location)
    ensures r.line == loc.line && r.endLine == loc.endLine
    ensures r.file.Some? <==> loc.file.Some?
    ensures loc.file.Some? ==> r.file.value <= loc.file.value
    ensures loc.file.Some? && r.file.value != loc.file.value ==>
      var f := loc.file.value; var s := r.file.value;
      f[|s|] == '.' && '.' !in f[|s| + 1..]
  {
    match loc.file
    case Some(f) =>
      StripExtMeaning(f, seps);
      if f != "" then loc.(file := Some(StripExt(f, seps))) else loc
    case None => loc
  }

  /** `loc.get("line", 0)` */
  function LineOr0(loc: Location): int {
    loc.line.GetOr(0)
  }
}
