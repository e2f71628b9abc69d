/** The part of a libclang cursor the analysers read, and the names and keys they
    derive from it (src/parser.py, analyzer.py and analyzer/function_analyzer.py
    build them identically). */
module Cursors {
  import opened Wrappers
  import opened Text

  datatype Kind =
    | FunctionDecl | CxxMethod | VarDecl | CallExpr
    | Namespace | ClassDecl | StructDecl | TranslationUnit | OtherKind

  predicate IsFunctionKind(k: Kind) {
    k == FunctionDecl || k == CxxMethod
  }

  /** Kinds whose spelling becomes a component of a qualified name. */
  predicate IsScopeKind(k: Kind) {
    k == Namespace || k == ClassDecl || k == StructDecl
  }

  /** A semantic ancestor of a declaration. */
  datatype Scope = Scope(kind: Kind, spelling: string)

  /** What the key and name helpers read of a declaration: its spelling, its mangled
      name ("" when there is none), its location (`file` is None when the location
      has no file) and its semantic ancestors, the immediate parent first. */
  datatype Decl = Decl(spelling: string, mangled: string, file: Option<string>, line: nat, parents: seq<Scope>)

  datatype Param = Param(name: string, typeSpelling: string)

  /** A cursor of the AST. `referenced` is what a call expression refers to, if
      anything; `endFile`/`endLine` are the end of its extent. */
  datatype Cursor = Cursor(
    kind: Kind,
    decl: Decl,
    isDefinition: bool,
    endFile: Option<string>,
    endLine: nat,
    params: seq<Param>,
    typeSpelling: string,
    referenced: Option<Decl>,
    children: seq<Cursor>)

  function ScopeName(s: Scope): (r: string)
    ensures r != ""
    ensures s.spelling != "" ==> r == s.spelling
  {
    if s.spelling == "" then "(anonymous)" else s.spelling
  }

  function ScopeTag(s: Scope): seq<string> {
    if IsScopeKind(s.kind) then [ScopeName(s)] else []
  }

  /** The names of the namespace, class and struct ancestors, outermost first. */
  function Qualifiers(parents: seq<Scope>): (r: seq<string>)
    ensures |r| <= |parents|
    ensures forall k :: 0 <= k < |r| ==> r[k] != ""
    decreases |parents|
  {
    if parents == [] then []
    else ScopeTag(parents[|parents| - 1]) + Qualifiers(parents[..|parents| - 1])
  }

  /** `get_qualified_name(cursor)`, as a value. */
  function QualifiedName(d: Decl): string {
    Join(Qualifiers(d.parents) + [d.spelling], "::")
  }

  /** `get_qualified_name(cursor)`: walks the semantic parents from the nearest one
      outwards, putting each scope name in front of the ones found so far. */
  method GetQualifiedName(d: Decl) returns (q: string)
    ensures q == Join(Qualifiers(d.parents) + [d.spelling], "::")
  {
    var parts: seq<string> := [];
    var i := 0;
    while i < |d.parents|
      invariant 0 <= i <= |d.parents|
      invariant parts == Qualifiers(d.parents[..i])
    {
      var parent := d.parents[i];
      assert d.parents[..i + 1][..i] == d.parents[..i];
      if IsScopeKind(parent.kind) {
        parts := [ScopeName(parent)] + parts;
      }
      i := i + 1;
    }
    assert d.parents[..i] == d.parents;
    parts := parts + [d.spelling];
    q := Join(parts, "::");
  }

  /** The immediate parent's name comes last among the qualifiers. */
  lemma {:induction false} QualifiersInnermostLast(inner: Scope, outer: seq<Scope>)
    ensures Qualifiers([inner] + outer) == Qualifiers(outer) + ScopeTag(inner)
    decreases |outer|
  {
    if outer == [] {
      assert [inner] + outer == [inner];
      assert [inner][..0] == [];
    } else {
      var all := [inner] + outer;
      assert all[|all| - 1] == outer[|outer| - 1];
      assert all[..|all| - 1] == [inner] + outer[..|outer| - 1];
      QualifiersInnermostLast(inner, outer[..|outer| - 1]);
    }
  }

  /** Ancestors that are not namespaces, classes or structs contribute nothing. */
  lemma {:induction false} QualifiersSkipOtherKinds(parents: seq<Scope>)
    requires forall k :: 0 <= k < |parents| ==> !IsScopeKind(parents[k].kind)
    ensures Qualifiers(parents) == []
    decreases |parents|
  {
    if parents != [] {
      QualifiersSkipOtherKinds(parents[..|parents| - 1]);
    }
  }

  lemma {:induction false} JoinSnoc(xs: seq<string>, y: string, sep: string)
    requires xs != []
    ensures Join(xs + [y], sep) == Join(xs, sep) + sep + y
    decreases |xs|
  {
    if |xs| == 1 {
      assert (xs + [y])[1..] == [y];
    } else {
      assert (xs + [y])[1..] == xs[1..] + [y];
      JoinSnoc(xs[1..], y, sep);
    }
  }

  /** A declaration without scope ancestors is named by its spelling alone; with
      some, its name is theirs followed by "::" and its spelling. */
  lemma QualifiedNameShape(d: Decl)
    ensures Qualifiers(d.parents) == [] ==> QualifiedName(d) == d.spelling
    ensures Qualifiers(d.parents) != [] ==>
      QualifiedName(d) == Join(Qualifiers(d.parents), "::") + "::" + d.spelling
  {
    if Qualifiers(d.parents) == [] {
      assert Qualifiers(d.parents) + [d.spelling] == [d.spelling];
    } else {
      JoinSnoc(Qualifiers(d.parents), d.spelling, "::");
    }
  }

  /** `f"{file}:{line}"`: the functionId / variableId of a location. */
  function LocationId(file: string, line: nat): (r: string)
    ensures RSplitOnce(r, ':') == [file, NatToString(line)]
  {
    assert ':' !in NatToString(line);
    RSplitOnceJoined(file, ':', NatToString(line));
    file + ":" + NatToString(line)
  }

  /** The line is recovered from a location id by `int(id.rsplit(":", 1)[1])`,
      whatever colons the file path holds (a Windows drive letter, say). */
  lemma LocationIdLine(file: string, line: nat)
    ensures ParseInt(RSplitOnce(LocationId(file, line), ':')[1]) == Some(line)
  {
    ParseNatString(line);
  }

  /** Location ids are injective. */
  lemma LocationIdInjective(f1: string, l1: nat, f2: string, l2: nat)
    requires LocationId(f1, l1) == LocationId(f2, l2)
    ensures f1 == f2 && l1 == l2
  {
    assert RSplitOnce(LocationId(f1, l1), ':') == RSplitOnce(LocationId(f2, l2), ':');
    NatToStringInjective(l1, l2);
  }

  /** `get_function_key(cursor)` */
  function FunctionKey(d: Decl): (r: string)
    ensures d.mangled != "" ==> r == d.mangled
    ensures d.mangled == "" && d.file.Some? ==>
      RSplitOnce(r, ':') == [QualifiedName(d) + "@" + d.file.value, NatToString(d.line)]
    ensures d.mangled == "" && d.file.None? ==> r == QualifiedName(d)
  {
    if d.mangled != "" then d.mangled
    else if d.file.Some? then
      assert QualifiedName(d) + "@" + d.file.value + ":" + NatToString(d.line)
        == LocationId(QualifiedName(d) + "@" + d.file.value, d.line);
      QualifiedName(d) + "@" + d.file.value + ":" + NatToString(d.line)
    else QualifiedName(d)
  }

  /** Two unmangled definitions in one file at different lines get different keys,
      even when their qualified names coincide (overloads without a mangled name). */
  lemma FallbackKeysDistinct(d1: Decl, d2: Decl)
    requires d1.mangled == "" && d2.mangled == ""
    requires d1.file.Some? && d1.file == d2.file
    requires d1.line != d2.line
    ensures FunctionKey(d1) != FunctionKey(d2)
  {
    if FunctionKey(d1) == FunctionKey(d2) {
      NatToStringInjective(d1.line, d2.line);
    }
  }
}
