/** The unit-diagram view (src/views/unit_diagrams.py): for one `.cpp` unit, the
    edges between Mermaid unit boxes labelled with interface ids, the split of
    the neighbouring boxes into callers and callees inside and outside the
    unit's module, and the diagram preamble. Units are the ordered
    `units_data` dictionary, a sequence of (unit key, unit) pairs. */
module UnitDiagrams {
  import opened Wrappers
  import opened Text
  import opened Ordering
  import opened Grouping

  /** KEY_SEP */
  const KeySep: char := '|'

  /** The fields of a `units_data` entry the view reads. */
  datatype UnitInfo = UnitInfo(fileName: Option<string>, functionIds: seq<string>)

  /** The fields of a `functions_data` entry the view reads; a missing or
      null `callsIds`/`calledByIds` is the empty list, a missing
      `interfaceId` the empty string. */
  datatype FunctionInfo = FunctionInfo(callsIds: seq<string>, calledByIds: seq<string>, interfaceId: string)

  type Units = seq<(string, UnitInfo)>

  /** A diagram edge: (from box, to box). */
  type Edge = (string, string)

  /** `d.get(k)` */
  function Lookup(m: map<string, string>, k: string): Option<string> {
    if k in m then Some(m[k]) else None
  }

  // ------------------------------------------------------------- _fid_to_unit

  /** The position of the first unit listing `fid`, or -1 when none does. */
  function FirstIndex(units: Units, fid: string): (r: int)
    ensures -1 <= r < |units|
    ensures r == -1 <==> forall i :: 0 <= i < |units| ==> fid !in units[i].1.functionIds
    ensures r >= 0 ==> fid in units[r].1.functionIds
    ensures r >= 0 ==> forall j :: 0 <= j < r ==> fid !in units[j].1.functionIds
    decreases |units|
  {
    if units == [] then -1
    else
      var prev := FirstIndex(units[..|units| - 1], fid);
      if prev >= 0 then prev
      else if fid in units[|units| - 1].1.functionIds then |units| - 1
      else -1
  }

  /** The unit `_fid_to_unit` assigns to `fid`: the first one listing it. */
  function FirstUnit(units: Units, fid: string): Option<string> {
    var i := FirstIndex(units, fid);
    if i < 0 then None else Some(units[i].0)
  }

  lemma FirstUnitStep(units: Units, i: nat, fid: string)
    requires i < |units|
    ensures FirstUnit(units[..i + 1], fid) ==
      if FirstUnit(units[..i], fid).Some? then FirstUnit(units[..i], fid)
      else if fid in units[i].1.functionIds then Some(units[i].0)
      else None
  {
    assert units[..i + 1][..i] == units[..i];
  }

  /** `_fid_to_unit`: each function id maps to the first unit, in dictionary
      order, whose `functionIds` lists it; unlisted ids are absent. */
  method FidToUnit(units: Units) returns (out: map<string, string>)
    ensures forall fid :: Lookup(out, fid) == FirstUnit(units, fid)
  {
    out := map[];
    var i := 0;
    while i < |units|
      invariant 0 <= i <= |units|
      invariant forall fid :: Lookup(out, fid) == FirstUnit(units[..i], fid)
    {
      ghost var prev := out;
      out := AddFirst(out, units[i].0, units[i].1.functionIds);
      forall fid ensures Lookup(out, fid) == FirstUnit(units[..i + 1], fid) {
        FirstUnitStep(units, i, fid);
      }
      i := i + 1;
    }
    assert units[..i] == units;
  }

  /** The inner loop of `_fid_to_unit`: ids not yet assigned go to `key`. */
  method AddFirst(out0: map<string, string>, key: string, ids: seq<string>) returns (out: map<string, string>)
    ensures forall fid :: Lookup(out, fid) ==
                          (if fid in out0 then Some(out0[fid]) else if fid in ids then Some(key) else None)
  {
    out := out0;
    var j := 0;
    while j < |ids|
      invariant 0 <= j <= |ids|
      invariant forall fid :: Lookup(out, fid) ==
                              (if fid in out0 then Some(out0[fid]) else if fid in ids[..j] then Some(key) else None)
    {
      assert ids[..j + 1] == ids[..j] + [ids[j]];
      if ids[j] !in out {
        out := out[ids[j] := key];
      }
      j := j + 1;
    }
    assert ids[..j] == ids;
  }

  // ------------------------------------------------------------- ids and labels

  /** `_unit_part_id`: a Mermaid node id. */
  function UnitPartId(uk: string): (r: string)
    ensures r != "" && KeySep !in r && ' ' !in r
    ensures uk != "" ==> |r| == |uk|
    ensures uk != "" ==> forall i :: 0 <= i < |uk| && uk[i] != KeySep && uk[i] != ' ' ==> r[i] == uk[i]
    ensures uk == "" ==> r == "u"
  {
    var s := ReplaceChar(ReplaceChar(uk, KeySep, '_'), ' ', '_');
    if s == "" then "u" else s
  }

  /** A node id is its own node id. */
  lemma PartIdIdempotent(uk: string)
    ensures UnitPartId(UnitPartId(uk)) == UnitPartId(uk)
  {
    var r := UnitPartId(uk);
    assert UnitPartId(r) == r by {
      var s := ReplaceChar(ReplaceChar(r, KeySep, '_'), ' ', '_');
      assert s == r;
    }
  }

  /** Distinct unit keys can share a node id: a key with a space and the same
      key with an underscore are drawn as one box. */
  lemma PartIdsCollide()
    ensures UnitPartId("m|a b") == UnitPartId("m|a_b")
    ensures "m|a b" != "m|a_b"
  {
    var x := UnitPartId("m|a b");
    var y := UnitPartId("m|a_b");
    assert x == "m_a_b" by {
      assert |x| == 5 && x[0] == 'm' && x[2] == 'a' && x[4] == 'b';
    }
    assert y == "m_a_b" by {
      assert |y| == 5 && y[0] == 'm' && y[2] == 'a' && y[4] == 'b';
    }
    assert "m|a b"[3] != "m|a_b"[3];
  }

  /** The escape a character of a unit key gets in a collision-free node id:
      "_" becomes "__", the separator "_p" and a space "_s"; every other
      character stands for itself. */
  function EscapeIdChar(c: char): string {
    if c == '_' then "__" else if c == KeySep then "_p" else if c == ' ' then "_s" else [c]
  }

  function EscapeId(uk: string): (r: string)
    ensures KeySep !in r && ' ' !in r
    decreases |uk|
  {
    if uk == [] then [] else EscapeIdChar(uk[0]) + EscapeId(uk[1..])
  }

  /** Reads an escaped node id back: "_p" is the separator, "_s" a space and
      any other pair starting with "_" an underscore. */
  function UnescapeId(s: string): string
    decreases |s|
  {
    if s == [] then []
    else if s[0] == '_' && |s| >= 2 then
      [if s[1] == 'p' then KeySep else if s[1] == 's' then ' ' else '_'] + UnescapeId(s[2..])
    else [s[0]] + UnescapeId(s[1..])
  }

  lemma {:induction false} UnescapeEscape(uk: string)
    ensures UnescapeId(EscapeId(uk)) == uk
    decreases |uk|
  {
    if uk != [] {
      var c := uk[0];
      var rest := EscapeId(uk[1..]);
      UnescapeEscape(uk[1..]);
      assert EscapeId(uk) == EscapeIdChar(c) + rest;
      if c == '_' || c == KeySep || c == ' ' {
        assert (EscapeIdChar(c) + rest)[2..] == rest;
      } else {
        assert (EscapeIdChar(c) + rest)[1..] == rest;
      }
      assert uk == [c] + uk[1..];
    }
  }

  /** No key escapes to "_e", the node id of the empty key. */
  lemma EscapeNotEmptyId(uk: string)
    ensures EscapeId(uk) != "_e"
  {
    if uk != [] {
      var c := uk[0];
      assert EscapeId(uk) == EscapeIdChar(c) + EscapeId(uk[1..]);
      if c == '_' || c == KeySep || c == ' ' {
        assert EscapeId(uk)[1] != 'e';
      } else {
        assert EscapeId(uk)[0] != '_';
      }
    }
  }

  /** `_unit_part_id` as a collision-free Mermaid node id: each key is
      escaped, the empty key is "_e". */
  function UnitPartIdIntended(uk: string): (r: string)
    ensures r != "" && KeySep !in r && ' ' !in r
  {
    if uk == "" then "_e" else EscapeId(uk)
  }

  /** Distinct unit keys get distinct node ids, so no two units share a box. */
  lemma PartIdIntendedInjective(a: string, b: string)
    ensures UnitPartIdIntended(a) == UnitPartIdIntended(b) ==> a == b
  {
    if a != "" && b != "" {
      UnescapeEscape(a);
      UnescapeEscape(b);
    } else if a != "" {
      EscapeNotEmptyId(a);
    } else if b != "" {
      EscapeNotEmptyId(b);
    }
  }

  /** A non-empty key without "_", separator or space gets the same node id
      from both definitions: itself. */
  lemma PartIdIntendedAgrees(uk: string)
    requires uk != ""
    requires forall i :: 0 <= i < |uk| ==> uk[i] != '_' && uk[i] != KeySep && uk[i] != ' '
    ensures UnitPartIdIntended(uk) == UnitPartId(uk) == uk
  {
    PlainEscape(uk);
    assert UnitPartId(uk) == uk;
  }

  lemma {:induction false} PlainEscape(uk: string)
    requires forall i :: 0 <= i < |uk| ==> uk[i] != '_' && uk[i] != KeySep && uk[i] != ' '
    ensures EscapeId(uk) == uk
    decreases |uk|
  {
    if uk != [] {
      PlainEscape(uk[1..]);
      assert uk == [uk[0]] + uk[1..];
    }
  }

  /** `_escape_label`: `"` becomes `'`, a newline a space and `|` a broken bar. */
  function EscapeLabel(t: string): (r: string)
    ensures |r| == |t|
    ensures '"' !in r && '\n' !in r && '|' !in r
    ensures forall i :: 0 <= i < |t| && t[i] != '"' && t[i] != '\n' && t[i] != '|' ==> r[i] == t[i]
  {
    var a := ReplaceChar(t, '"', '\'');
    var b := ReplaceChar(a, '\n', ' ');
    var c := ReplaceChar(b, '|', '\U{00A6}');
    assert '"' !in c by { ReplaceCharRemoves(t, '"', '\''); }
    c
  }

  /** `uk.split(KEY_SEP)[0] if KEY_SEP in uk else ""` */
  function ModuleOf(uk: string): (r: string)
    ensures KeySep !in r
    ensures KeySep in uk ==> r + [KeySep] <= uk
    ensures KeySep !in uk ==> r == ""
  {
    if KeySep in uk then
      SplitFirst(uk, KeySep);
      var m := Split(uk, KeySep)[0];
      assert |m| < |uk| by {
        assert m <= uk && KeySep !in m;
      }
      assert (m + [KeySep]) == uk[..|m| + 1];
      m
    else ""
  }

  // ------------------------------------------------------------- edges

  /** `functions_data.get(fid, {}).get("interfaceId", "")` */
  function IfaceOf(fns: map<string, FunctionInfo>, fid: string): string {
    if fid in fns then fns[fid].interfaceId else ""
  }

  /** The other function's unit is known, non-empty and not this unit. */
  predicate Linked(uk: string, f2u: map<string, string>, other: string) {
    other in f2u && f2u[other] != "" && f2u[other] != uk
  }

  /** The pair the first loop adds for a call to `c`, if any. */
  function CalleeItem(uk: string, fns: map<string, FunctionInfo>, f2u: map<string, string>, c: string): seq<(Edge, string)> {
    if Linked(uk, f2u, c) && IfaceOf(fns, c) != "" then [((UnitPartId(uk), UnitPartId(f2u[c])), IfaceOf(fns, c))] else []
  }

  function CalleesOf(uk: string, fns: map<string, FunctionInfo>, f2u: map<string, string>): string -> seq<(Edge, string)> {
    c => CalleeItem(uk, fns, f2u, c)
  }

  /** The pairs the first loop adds for one listed function. */
  function OutItem(uk: string, fns: map<string, FunctionInfo>, f2u: map<string, string>, f: string): seq<(Edge, string)> {
    if f in fns then FlatMap(fns[f].callsIds, CalleesOf(uk, fns, f2u)) else []
  }

  function OutsOf(uk: string, fns: map<string, FunctionInfo>, f2u: map<string, string>): string -> seq<(Edge, string)> {
    f => OutItem(uk, fns, f2u, f)
  }

  /** The pair the second loop adds for a call from `c` into a function with
      interface id `iface`, if any. */
  function CallerItem(uk: string, f2u: map<string, string>, iface: string, c: string): seq<(Edge, string)> {
    if Linked(uk, f2u, c) then [((UnitPartId(f2u[c]), UnitPartId(uk)), iface)] else []
  }

  function CallersOf(uk: string, f2u: map<string, string>, iface: string): string -> seq<(Edge, string)> {
    c => CallerItem(uk, f2u, iface, c)
  }

  /** The pairs the second loop adds for one listed function: none without an interface id. */
  function InItem(uk: string, fns: map<string, FunctionInfo>, f2u: map<string, string>, f: string): seq<(Edge, string)> {
    if f in fns && fns[f].interfaceId != "" then FlatMap(fns[f].calledByIds, CallersOf(uk, f2u, fns[f].interfaceId)) else []
  }

  function InsOf(uk: string, fns: map<string, FunctionInfo>, f2u: map<string, string>): string -> seq<(Edge, string)> {
    f => InItem(uk, fns, f2u, f)
  }

  /** All (edge, interface id) pairs, in the order the two loops visit them. */
  function EdgePairs(uk: string, u: UnitInfo, fns: map<string, FunctionInfo>,
                     f2u: map<string, string>): seq<(Edge, string)>
  {
    FlatMap(u.functionIds, OutsOf(uk, fns, f2u)) + FlatMap(u.functionIds, InsOf(uk, fns, f2u))
  }

  /** `edges.setdefault(key, set()).add(iface)` */
  function Add(e: map<Edge, set<string>>, p: (Edge, string)): map<Edge, set<string>> {
    e[p.0 := (if p.0 in e then e[p.0] else {}) + {p.1}]
  }

  /** The edge map after adding `pairs` in order to an empty one. */
  function Collect(pairs: seq<(Edge, string)>): map<Edge, set<string>>
    decreases |pairs|
  {
    if pairs == [] then map[] else Add(Collect(pairs[..|pairs| - 1]), pairs[|pairs| - 1])
  }

  /** An edge is present iff some pair names it, and its label set is
      exactly the interface ids paired with it. */
  lemma {:induction false} CollectMeaning(pairs: seq<(Edge, string)>)
    ensures forall k :: k in Collect(pairs) <==> exists l :: (k, l) in pairs
    ensures forall k, l :: k in Collect(pairs) ==> (l in Collect(pairs)[k] <==> (k, l) in pairs)
    decreases |pairs|
  {
    if pairs != [] {
      var front := pairs[..|pairs| - 1];
      CollectMeaning(front);
      assert pairs == front + [pairs[|pairs| - 1]];
    }
  }

  /** Adding zero or one more pair. */
  lemma CollectStep(base: seq<(Edge, string)>, front: seq<(Edge, string)>, item: seq<(Edge, string)>)
    requires |item| <= 1
    ensures Collect(base + (front + item)) ==
            if item == [] then Collect(base + front) else Add(Collect(base + front), item[0])
  {
    var x := (base + front) + item;
    assert base + (front + item) == x;
    if item != [] {
      assert x[..|x| - 1] == base + front && x[|x| - 1] == item[0];
    } else {
      assert x == base + front;
    }
  }

  /** Every edge of the diagram either leaves this unit's box, towards a
      callee in another unit with a non-empty interface id, or enters it
      from a caller in another unit into a function with a non-empty
      interface id; the label set holds exactly those interface ids. */
  lemma EdgeOrigin(uk: string, u: UnitInfo, fns: map<string, FunctionInfo>, f2u: map<string, string>,
                   k: Edge, l: string)
    requires k in Collect(EdgePairs(uk, u, fns, f2u)) && l in Collect(EdgePairs(uk, u, fns, f2u))[k]
    ensures
      (exists f, c :: f in u.functionIds && f in fns && c in fns[f].callsIds && Linked(uk, f2u, c) &&
                      IfaceOf(fns, c) == l && l != "" && k == (UnitPartId(uk), UnitPartId(f2u[c]))) ||
      (exists f, c :: f in u.functionIds && f in fns && fns[f].interfaceId == l && l != "" &&
                      c in fns[f].calledByIds && Linked(uk, f2u, c) && k == (UnitPartId(f2u[c]), UnitPartId(uk)))
  {
    CollectMeaning(EdgePairs(uk, u, fns, f2u));
    if (k, l) in FlatMap(u.functionIds, OutsOf(uk, fns, f2u)) {
      OutPairOrigin(uk, u.functionIds, fns, f2u, k, l);
    } else {
      InPairOrigin(uk, u.functionIds, fns, f2u, k, l);
    }
  }

  lemma OutPairOrigin(uk: string, fids: seq<string>, fns: map<string, FunctionInfo>, f2u: map<string, string>,
                      k: Edge, l: string)
    requires (k, l) in FlatMap(fids, OutsOf(uk, fns, f2u))
    ensures exists f, c :: f in fids && f in fns && c in fns[f].callsIds && Linked(uk, f2u, c) &&
                           IfaceOf(fns, c) == l && l != "" && k == (UnitPartId(uk), UnitPartId(f2u[c]))
  {
    var p := (k, l);
    FlatMapFrom(fids, OutsOf(uk, fns, f2u), p);
    var f :| f in fids && p in OutsOf(uk, fns, f2u)(f);
    assert p in OutItem(uk, fns, f2u, f);
    FlatMapFrom(fns[f].callsIds, CalleesOf(uk, fns, f2u), p);
    var c :| c in fns[f].callsIds && p in CalleesOf(uk, fns, f2u)(c);
    assert p in CalleeItem(uk, fns, f2u, c);
  }

  lemma InPairOrigin(uk: string, fids: seq<string>, fns: map<string, FunctionInfo>, f2u: map<string, string>,
                     k: Edge, l: string)
    requires (k, l) in FlatMap(fids, InsOf(uk, fns, f2u))
    ensures exists f, c :: f in fids && f in fns && fns[f].interfaceId == l && l != "" &&
                           c in fns[f].calledByIds && Linked(uk, f2u, c) && k == (UnitPartId(f2u[c]), UnitPartId(uk))
  {
    var p := (k, l);
    FlatMapFrom(fids, InsOf(uk, fns, f2u), p);
    var f :| f in fids && p in InsOf(uk, fns, f2u)(f);
    assert p in InItem(uk, fns, f2u, f);
    FlatMapFrom(fns[f].calledByIds, CallersOf(uk, f2u, fns[f].interfaceId), p);
    var c :| c in fns[f].calledByIds && p in CallersOf(uk, f2u, fns[f].interfaceId)(c);
    assert p in CallerItem(uk, f2u, fns[f].interfaceId, c);
  }

  /** Conversely, a call from a listed function to a known function of
      another unit whose interface id is non-empty is drawn as an outgoing
      edge carrying that id. */
  lemma CallDrawn(uk: string, u: UnitInfo, fns: map<string, FunctionInfo>, f2u: map<string, string>,
                  f: string, c: string)
    requires f in u.functionIds && f in fns && c in fns[f].callsIds
    requires Linked(uk, f2u, c) && IfaceOf(fns, c) != ""
    ensures var k := (UnitPartId(uk), UnitPartId(f2u[c]));
            k in Collect(EdgePairs(uk, u, fns, f2u)) && IfaceOf(fns, c) in Collect(EdgePairs(uk, u, fns, f2u))[k]
  {
    var p := ((UnitPartId(uk), UnitPartId(f2u[c])), IfaceOf(fns, c));
    assert p in CalleesOf(uk, fns, f2u)(c);
    FlatMapTo(fns[f].callsIds, CalleesOf(uk, fns, f2u), c, p);
    assert p in OutsOf(uk, fns, f2u)(f);
    FlatMapTo(u.functionIds, OutsOf(uk, fns, f2u), f, p);
    CollectMeaning(EdgePairs(uk, u, fns, f2u));
  }

  /** A call into a listed function with a non-empty interface id from a
      known function of another unit is drawn as an incoming edge carrying
      that id. */
  lemma CallerDrawn(uk: string, u: UnitInfo, fns: map<string, FunctionInfo>, f2u: map<string, string>,
                    f: string, c: string)
    requires f in u.functionIds && f in fns && fns[f].interfaceId != "" && c in fns[f].calledByIds
    requires Linked(uk, f2u, c)
    ensures var k := (UnitPartId(f2u[c]), UnitPartId(uk));
            k in Collect(EdgePairs(uk, u, fns, f2u)) && fns[f].interfaceId in Collect(EdgePairs(uk, u, fns, f2u))[k]
  {
    var p := ((UnitPartId(f2u[c]), UnitPartId(uk)), fns[f].interfaceId);
    assert p in CallersOf(uk, f2u, fns[f].interfaceId)(c);
    FlatMapTo(fns[f].calledByIds, CallersOf(uk, f2u, fns[f].interfaceId), c, p);
    assert p in InsOf(uk, fns, f2u)(f);
    FlatMapTo(u.functionIds, InsOf(uk, fns, f2u), f, p);
    CollectMeaning(EdgePairs(uk, u, fns, f2u));
  }

  /** The two loops of `_build_unit_diagram` that fill `edges`. */
  method CollectEdges(uk: string, u: UnitInfo, fns: map<string, FunctionInfo>, f2u: map<string, string>)
    returns (edges: map<Edge, set<string>>)
    ensures edges == Collect(EdgePairs(uk, u, fns, f2u))
  {
    edges := OutEdges(uk, fns, f2u, u.functionIds);
    edges := InEdges(uk, fns, f2u, u.functionIds, edges, FlatMap(u.functionIds, OutsOf(uk, fns, f2u)));
  }

  /** The first loop: edges from this unit to the units of its callees. */
  method OutEdges(uk: string, fns: map<string, FunctionInfo>, f2u: map<string, string>, fids: seq<string>)
    returns (edges: map<Edge, set<string>>)
    ensures edges == Collect(FlatMap(fids, OutsOf(uk, fns, f2u)))
  {
    edges := map[];
    var i := 0;
    while i < |fids|
      invariant 0 <= i <= |fids|
      invariant edges == Collect(FlatMap(fids[..i], OutsOf(uk, fns, f2u)))
    {
      ghost var front := FlatMap(fids[..i], OutsOf(uk, fns, f2u));
      FlatMapSnoc(fids, OutsOf(uk, fns, f2u), i);
      assert OutsOf(uk, fns, f2u)(fids[i]) == OutItem(uk, fns, f2u, fids[i]);
      if fids[i] in fns {
        edges := AddCalleeEdges(uk, fns, f2u, fns[fids[i]].callsIds, edges, front);
      } else {
        assert front + [] == front;
      }
      i := i + 1;
    }
    assert fids[..i] == fids;
  }

  /** The inner loop over `callsIds`. */
  method AddCalleeEdges(uk: string, fns: map<string, FunctionInfo>, f2u: map<string, string>, calls: seq<string>,
                        edges0: map<Edge, set<string>>, ghost base: seq<(Edge, string)>)
    returns (edges: map<Edge, set<string>>)
    requires edges0 == Collect(base)
    ensures edges == Collect(base + FlatMap(calls, CalleesOf(uk, fns, f2u)))
  {
    edges := edges0;
    assert base + FlatMap(calls[..0], CalleesOf(uk, fns, f2u)) == base;
    var j := 0;
    while j < |calls|
      invariant 0 <= j <= |calls|
      invariant edges == Collect(base + FlatMap(calls[..j], CalleesOf(uk, fns, f2u)))
    {
      FlatMapSnoc(calls, CalleesOf(uk, fns, f2u), j);
      CollectStep(base, FlatMap(calls[..j], CalleesOf(uk, fns, f2u)), CalleeItem(uk, fns, f2u, calls[j]));
      var c := calls[j];
      var calleeUnit := Lookup(f2u, c);
      if calleeUnit.Some? && calleeUnit.value != "" && calleeUnit.value != uk {
        var iface := IfaceOf(fns, c);
        if iface != "" {
          edges := Add(edges, ((UnitPartId(uk), UnitPartId(calleeUnit.value)), iface));
        }
      }
      j := j + 1;
    }
    assert calls[..j] == calls;
  }

  /** The second loop: edges from the units of callers into this unit. */
  method InEdges(uk: string, fns: map<string, FunctionInfo>, f2u: map<string, string>, fids: seq<string>,
                 edges0: map<Edge, set<string>>, ghost base: seq<(Edge, string)>)
    returns (edges: map<Edge, set<string>>)
    requires edges0 == Collect(base)
    ensures edges == Collect(base + FlatMap(fids, InsOf(uk, fns, f2u)))
  {
    edges := edges0;
    assert base + FlatMap(fids[..0], InsOf(uk, fns, f2u)) == base;
    var i := 0;
    while i < |fids|
      invariant 0 <= i <= |fids|
      invariant edges == Collect(base + FlatMap(fids[..i], InsOf(uk, fns, f2u)))
    {
      InStep(uk, fns, f2u, fids, i, base);
      ghost var cur := base + FlatMap(fids[..i], InsOf(uk, fns, f2u));
      if fids[i] in fns && fns[fids[i]].interfaceId != "" {
        edges := AddCallerEdges(uk, f2u, fns[fids[i]].interfaceId, fns[fids[i]].calledByIds, edges, cur);
      }
      i := i + 1;
    }
    assert fids[..i] == fids;
  }

  lemma InStep(uk: string, fns: map<string, FunctionInfo>, f2u: map<string, string>, fids: seq<string>, i: nat,
               base: seq<(Edge, string)>)
    requires i < |fids|
    ensures var cur := base + FlatMap(fids[..i], InsOf(uk, fns, f2u));
            var next := base + FlatMap(fids[..i + 1], InsOf(uk, fns, f2u));
            if fids[i] in fns && fns[fids[i]].interfaceId != "" then
              next == cur + FlatMap(fns[fids[i]].calledByIds, CallersOf(uk, f2u, fns[fids[i]].interfaceId))
            else next == cur
  {
    FlatMapSnoc(fids, InsOf(uk, fns, f2u), i);
    assert InsOf(uk, fns, f2u)(fids[i]) == InItem(uk, fns, f2u, fids[i]);
  }

  /** The inner loop over `calledByIds`. */
  method AddCallerEdges(uk: string, f2u: map<string, string>, iface: string, callers: seq<string>,
                        edges0: map<Edge, set<string>>, ghost base: seq<(Edge, string)>)
    returns (edges: map<Edge, set<string>>)
    requires edges0 == Collect(base)
    ensures edges == Collect(base + FlatMap(callers, CallersOf(uk, f2u, iface)))
  {
    edges := edges0;
    assert base + FlatMap(callers[..0], CallersOf(uk, f2u, iface)) == base;
    var j := 0;
    while j < |callers|
      invariant 0 <= j <= |callers|
      invariant edges == Collect(base + FlatMap(callers[..j], CallersOf(uk, f2u, iface)))
    {
      FlatMapSnoc(callers, CallersOf(uk, f2u, iface), j);
      CollectStep(base, FlatMap(callers[..j], CallersOf(uk, f2u, iface)), CallerItem(uk, f2u, iface, callers[j]));
      var c := callers[j];
      var callerUnit := Lookup(f2u, c);
      if callerUnit.Some? && callerUnit.value != "" && callerUnit.value != uk {
        edges := Add(edges, ((UnitPartId(callerUnit.value), UnitPartId(uk)), iface));
      }
      j := j + 1;
    }
    assert callers[..j] == callers;
  }

  // ------------------------------------------------------------- partitions

  /** `{fr for (fr, to) in edges if to == this_id}` */
  function CallerIds(edges: map<Edge, set<string>>, thisId: string): set<string> {
    set k | k in edges && k.1 == thisId :: k.0
  }

  /** `{to for (fr, to) in edges if fr == this_id}` */
  function CalleeIds(edges: map<Edge, set<string>>, thisId: string): set<string> {
    set k | k in edges && k.0 == thisId :: k.1
  }

  /** Whether a unit belongs to module `m`. */
  function InModule(m: string): ((string, UnitInfo)) -> bool {
    (e: (string, UnitInfo)) => ModuleOf(e.0) == m
  }

  /** The node id of a unit. */
  function PartIdOf(): ((string, UnitInfo)) -> string {
    (e: (string, UnitInfo)) => UnitPartId(e.0)
  }

  /** The node ids of the units in the given module. */
  function SameModuleIn(units: Units, m: string): set<string> {
    SetWhere(units, InModule(m), PartIdOf())
  }

  /** A node id is in `same_mod` iff some unit of the module has it. */
  lemma SameModuleInMeaning(units: Units, m: string, pid: string)
    ensures pid in SameModuleIn(units, m) <==>
            exists e :: e in units && ModuleOf(e.0) == m && UnitPartId(e.0) == pid
  {
    SetWhereMeaning(units, InModule(m), PartIdOf(), pid);
    if exists e :: e in units && ModuleOf(e.0) == m && UnitPartId(e.0) == pid {
      var e :| e in units && ModuleOf(e.0) == m && UnitPartId(e.0) == pid;
      assert InModule(m)(e) && PartIdOf()(e) == pid;
    }
  }

  /** The `same_mod` loop: the node ids of every unit in this unit's module. */
  method SameModule(units: Units, m: string) returns (s: set<string>)
    ensures s == SameModuleIn(units, m)
  {
    s := {};
    var i := 0;
    while i < |units|
      invariant 0 <= i <= |units|
      invariant s == SameModuleIn(units[..i], m)
    {
      SetWhereSnoc(units, InModule(m), PartIdOf(), i);
      var pid := UnitPartId(units[i].0);
      if ModuleOf(units[i].0) == m {
        s := s + {pid};
      }
      i := i + 1;
    }
    assert units[..i] == units;
  }

  /** The four sorted lists of neighbouring boxes. */
  datatype Partition = Partition(internalCallers: seq<string>, externalCallers: seq<string>,
                                 internalCallees: seq<string>, externalCallees: seq<string>)

  /** Callers split by module; callees that are not also callers, split by module. */
  function PartitionOf(callers: set<string>, callees: set<string>, sameMod: set<string>): (r: Partition)
    ensures StrictlySorted(r.internalCallers) && StrictlySorted(r.externalCallers)
    ensures StrictlySorted(r.internalCallees) && StrictlySorted(r.externalCallees)
    ensures forall x :: x in r.internalCallers <==> x in callers && x in sameMod
    ensures forall x :: x in r.externalCallers <==> x in callers && x !in sameMod
    ensures forall x :: x in r.internalCallees <==> x in callees && x !in callers && x in sameMod
    ensures forall x :: x in r.externalCallees <==> x in callees && x !in callers && x !in sameMod
  {
    SortSetSorted(callers * sameMod);
    SortSetSorted(callers - sameMod);
    SortSetSorted((callees - callers) * sameMod);
    SortSetSorted((callees - callers) - sameMod);
    Partition(SortSet(callers * sameMod), SortSet(callers - sameMod),
              SortSet((callees - callers) * sameMod), SortSet((callees - callers) - sameMod))
  }

  /** The four lists are pairwise disjoint; the caller lists together hold
      exactly the callers and the callee lists exactly the callees that are
      not callers. */
  lemma PartitionCovers(callers: set<string>, callees: set<string>, sameMod: set<string>)
    ensures var r := PartitionOf(callers, callees, sameMod);
      (forall x :: x in r.internalCallers ==> x !in r.externalCallers && x !in r.internalCallees && x !in r.externalCallees) &&
      (forall x :: x in r.externalCallers ==> x !in r.internalCallees && x !in r.externalCallees) &&
      (forall x :: x in r.internalCallees ==> x !in r.externalCallees) &&
      (forall x :: x in r.internalCallers || x in r.externalCallers <==> x in callers) &&
      (forall x :: x in r.internalCallees || x in r.externalCallees <==> x in callees - callers)
  {
  }

  /** `min(max(2, n_edges), 12)`: the number of padding lines in this unit's box. */
  function ExtraLines(nEdges: nat): (r: int)
    ensures 2 <= r <= 12
    ensures 2 <= nEdges <= 12 ==> r == nEdges
    ensures nEdges < 2 ==> r == 2
    ensures nEdges > 12 ==> r == 12
  {
    var m := if nEdges > 2 then nEdges else 2;
    if m < 12 then m else 12
  }

  // ------------------------------------------------------------- the diagram

  /** The lines every diagram starts with. */
  const Preamble: seq<string> := [
    "flowchart LR",
    "  classDef internal fill:#87CEEB,stroke:#333,stroke-width:1px",
    "  classDef mainUnit fill:#87CEEB,stroke:#4682B4,stroke-width:3px",
    ""
  ]

  /** What `_build_unit_diagram` computes before rendering the node and edge lines. */
  datatype Diagram = Diagram(preamble: seq<string>, thisId: string, thisModule: string,
                             edges: map<Edge, set<string>>, sameMod: set<string>,
                             partition: Partition, extraLines: int)

  /** `_build_unit_diagram`: nothing for a unit whose file name does not end
      in ".cpp"; otherwise a diagram headed "flowchart LR" whose edges are the
      ones the two loops collect, whose partition splits the boxes joined to
      this unit's box, and whose padding lies in [2, 12]. */
  method BuildUnitDiagram(uk: string, u: UnitInfo, units: Units, fns: map<string, FunctionInfo>,
                          f2u: map<string, string>)
    returns (r: Option<Diagram>)
    ensures r.None? <==> !EndsWith(u.fileName.GetOr(""), ".cpp")
    ensures r.Some? ==> r.value.preamble != [] && r.value.preamble[0] == "flowchart LR"
    ensures r.Some? ==> r.value.thisId == UnitPartId(uk) && r.value.thisModule == ModuleOf(uk)
    ensures r.Some? ==> r.value.edges == Collect(EdgePairs(uk, u, fns, f2u))
    ensures r.Some? ==> r.value.sameMod == SameModuleIn(units, ModuleOf(uk))
    ensures r.Some? ==>
              r.value.partition ==
              PartitionOf(CallerIds(r.value.edges, r.value.thisId), CalleeIds(r.value.edges, r.value.thisId), r.value.sameMod)
    ensures r.Some? ==> 2 <= r.value.extraLines <= 12 && r.value.extraLines == ExtraLines(|r.value.edges|)
  {
    if !EndsWith(u.fileName.GetOr(""), ".cpp") {
      return None;
    }
    var thisId := UnitPartId(uk);
    var thisModule := ModuleOf(uk);
    var edges := CollectEdges(uk, u, fns, f2u);
    var sameMod := SameModule(units, thisModule);
    var partition := PartitionOf(CallerIds(edges, thisId), CalleeIds(edges, thisId), sameMod);
    r := Some(Diagram(Preamble, thisId, thisModule, edges, sameMod, partition, ExtraLines(|edges|)));
  }

  /** No edge of a diagram joins this unit to itself: every edge joins this
      unit's box to the box of a function's unit other than this unit. */
  lemma NoSelfEdge(uk: string, u: UnitInfo, fns: map<string, FunctionInfo>, f2u: map<string, string>, k: Edge)
    requires k in Collect(EdgePairs(uk, u, fns, f2u))
    ensures exists c :: c in f2u && f2u[c] != uk && f2u[c] != "" &&
                        (k == (UnitPartId(uk), UnitPartId(f2u[c])) || k == (UnitPartId(f2u[c]), UnitPartId(uk)))
  {
    CollectMeaning(EdgePairs(uk, u, fns, f2u));
    var l :| (k, l) in EdgePairs(uk, u, fns, f2u);
    EdgeOrigin(uk, u, fns, f2u, k, l);
  }
}
