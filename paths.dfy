/** Shared helpers of src/utils.py: the module a file belongs to, path
    normalisation against the project base, and the built-in range table for
    primitive C/C++ types. */
module Paths {
  import opened Wrappers
  import opened Text

  /** The operating system's path functions. They are left uninterpreted: every
      property below holds whatever `abspath`, `normcase`, `normpath`, `join` and
      `relpath` do. `relpath` yields None where Python raises ValueError (paths on
      different Windows drives). */
  datatype Os = Os(
    isAbs: string -> bool,
    abspath: string -> string,
    normcase: string -> string,
    normpath: string -> string,
    join: (string, string) -> string,
    relpath: (string, string) -> Option<string>,
    sep: char,
    seps: set<char>)

  const Unknown: string := "unknown"

  /** The case-normalised absolute form of a file path, a relative path being taken
      relative to the base. */
  function ResolvedPath(os: Os, filePath: string, basePath: string): string {
    var path := if os.isAbs(filePath) then filePath else os.join(basePath, filePath);
    os.normcase(os.abspath(path))
  }

  function ResolvedBase(os: Os, basePath: string): string {
    os.normcase(os.abspath(basePath))
  }

  /** The path of a non-empty file relative to the base, with backslashes turned
      into slashes, when the file passes the character-prefix test. */
  function RelativeTo(os: Os, filePath: string, basePath: string): Option<string> {
    var absBase := ResolvedBase(os, basePath);
    var absPath := ResolvedPath(os, filePath, basePath);
    if filePath == "" || !StartsWith(absPath, absBase) then None
    else
      match os.relpath(absPath, absBase)
      case None => None
      case Some(rel) => Some(ReplaceChar(rel, '\\', '/'))
  }

  /** `get_module_name(file_path, base_path)` */
  function GetModuleName(os: Os, filePath: string, basePath: string): (r: string)
    ensures filePath == "" ==> r == Unknown
    ensures !StartsWith(ResolvedPath(os, filePath, basePath), ResolvedBase(os, basePath)) ==> r == Unknown
    ensures RelativeTo(os, filePath, basePath) == None ==> r == Unknown
    ensures r != ""
    ensures '/' !in r
    ensures RelativeTo(os, filePath, basePath).Some? ==>
      var rel := RelativeTo(os, filePath, basePath).value;
      (rel == [] || rel[0] == '/' ==> r == Unknown) &&
      (rel != [] && rel[0] != '/' ==> IsFirstSegment(r, rel, '/'))
  {
    if filePath == "" then Unknown
    else
      var absBase := ResolvedBase(os, basePath);
      var absPath := ResolvedPath(os, filePath, basePath);
      if !StartsWith(absPath, absBase) then Unknown
      else
        match os.relpath(absPath, absBase)
        case None => Unknown
        case Some(rel) =>
          var parts := Split(ReplaceChar(rel, '\\', '/'), '/');
          SplitFirst(ReplaceChar(rel, '\\', '/'), '/');
          if parts[0] != "" then parts[0] else Unknown
  }

  /** A relative spelling of a file and an absolute spelling that `abspath` resolves to
      the same place give the same module. */
  lemma RelativeAndAbsoluteAgree(os: Os, relative: string, absolute: string, basePath: string)
    requires relative != "" && absolute != ""
    requires !os.isAbs(relative) && os.isAbs(absolute)
    requires os.abspath(os.join(basePath, relative)) == os.abspath(absolute)
    ensures GetModuleName(os, relative, basePath) == GetModuleName(os, absolute, basePath)
  {
    assert ResolvedPath(os, relative, basePath) == ResolvedPath(os, absolute, basePath);
  }

  /** `norm_path(path, base_path)` */
  function NormPath(os: Os, path: string, basePath: string): (r: string)
    ensures os.isAbs(path) ==> r == os.normpath(path)
    ensures !os.isAbs(path) ==> r == os.normpath(os.join(basePath, path))
  {
    if os.isAbs(path) then os.normpath(path) else os.normpath(os.join(basePath, path))
  }

  /** An absolute path is normalised the same way whatever the base. */
  lemma NormPathIgnoresBase(os: Os, path: string, base1: string, base2: string)
    requires os.isAbs(path)
    ensures NormPath(os, path, base1) == NormPath(os, path, base2)
  {
  }

  // ---------------------------------------------------------------- type ranges

  const VoidRange: string := "VOID"
  const Int32Range: string := "-2147483648-2147483647"
  const Int16Range: string := "-32768-32767"
  const Int64Range: string := "-9223372036854775808-9223372036854775807"
  const UInt32Range: string := "0-0xFFFFFFFF"
  const UInt16Range: string := "0-0xFFFF"
  const UInt64Range: string := "0-0xFFFFFFFFFFFFFFFF"
  const NoRange: string := "NA"

  /** `(type_str or "").strip().lower()` */
  function Normalised(typeStr: string): string {
    Lower(Strip(typeStr))
  }

  predicate IsVoidSpelling(t: string) {
    t == "void" || (StartsWith(t, "void ") && '*' !in t)
  }

  /** The normalised spelling with every "const " and "volatile " removed. */
  function BaseType(t: string): string {
    Strip(Replace(Replace(t, "const ", ""), "volatile ", ""))
  }

  function RangeOfBase(base: string): (r: string)
    ensures r != VoidRange
  {
    if base == "int" || base == "signed int" then Int32Range
    else if base == "short" || base == "short int" || base == "signed short" then Int16Range
    else if base == "long" || base == "long int" || base == "signed long" then Int32Range
    else if base == "long long" || base == "long long int" || base == "signed long long" then Int64Range
    else if base == "unsigned int" || base == "unsigned" then UInt32Range
    else if base == "unsigned short" then UInt16Range
    else if base == "unsigned long" then UInt32Range
    else if base == "unsigned long long" then UInt64Range
    else if (Contains(base, "size_t") && '*' !in base) || base == "param_size_t" then UInt64Range
    else NoRange
  }

  /** `get_range_for_type(type_str)` */
  function GetRangeForType(typeStr: string): (r: string)
    ensures r == VoidRange <==> IsVoidSpelling(Normalised(typeStr))
    ensures r in {VoidRange, Int32Range, Int16Range, Int64Range, UInt32Range, UInt16Range, UInt64Range, NoRange}
  {
    var t := Normalised(typeStr);
    if IsVoidSpelling(t) then VoidRange else RangeOfBase(BaseType(t))
  }

  /** Which spelling gets which range: after the qualifiers are removed, the
      int and long families are 32-bit signed, short 16-bit and long long
      64-bit signed; unsigned, unsigned int and unsigned long are 32-bit
      unsigned, unsigned short 16-bit and unsigned long long 64-bit unsigned, as
      is any other spelling naming size_t that is not a pointer; everything
      else has no range. */
  lemma RangeFamilies(typeStr: string)
    requires !IsVoidSpelling(Normalised(typeStr))
    ensures var b := BaseType(Normalised(typeStr));
      (b in Int32Bases ==> GetRangeForType(typeStr) == Int32Range) &&
      (b in Int16Bases ==> GetRangeForType(typeStr) == Int16Range) &&
      (b in Int64Bases ==> GetRangeForType(typeStr) == Int64Range) &&
      (b in UInt32Bases ==> GetRangeForType(typeStr) == UInt32Range) &&
      (b == "unsigned short" ==> GetRangeForType(typeStr) == UInt16Range) &&
      (b == "unsigned long long" ==> GetRangeForType(typeStr) == UInt64Range) &&
      (b == "param_size_t" ==> GetRangeForType(typeStr) == UInt64Range)
    ensures var b := BaseType(Normalised(typeStr));
      !IsFamily(b) && Contains(b, "size_t") && '*' !in b ==> GetRangeForType(typeStr) == UInt64Range
    ensures var b := BaseType(Normalised(typeStr));
      GetRangeForType(typeStr) == NoRange <==> !IsFamily(b) && !(Contains(b, "size_t") && '*' !in b)
  {
    RangeOfBaseFamilies(BaseType(Normalised(typeStr)));
  }

  const Int32Bases: set<string> := {"int", "signed int", "long", "long int", "signed long"}
  const Int16Bases: set<string> := {"short", "short int", "signed short"}
  const Int64Bases: set<string> := {"long long", "long long int", "signed long long"}
  const UInt32Bases: set<string> := {"unsigned int", "unsigned", "unsigned long"}

  /** A spelling of one of the fixed-width integer families. */
  predicate IsFamily(b: string) {
    b in Int32Bases || b in Int16Bases || b in Int64Bases || b in UInt32Bases ||
    b == "unsigned short" || b == "unsigned long long" || b == "param_size_t"
  }

  lemma RangeOfBaseFamilies(b: string)
    ensures b in Int32Bases ==> RangeOfBase(b) == Int32Range
    ensures b in Int16Bases ==> RangeOfBase(b) == Int16Range
    ensures b in Int64Bases ==> RangeOfBase(b) == Int64Range
    ensures b in UInt32Bases ==> RangeOfBase(b) == UInt32Range
    ensures b == "unsigned short" ==> RangeOfBase(b) == UInt16Range
    ensures b == "unsigned long long" || b == "param_size_t" ==> RangeOfBase(b) == UInt64Range
    ensures !IsFamily(b) && Contains(b, "size_t") && '*' !in b ==> RangeOfBase(b) == UInt64Range
    ensures RangeOfBase(b) == NoRange <==> !IsFamily(b) && !(Contains(b, "size_t") && '*' !in b)
  {
  }

  /** "signed X" and "X" name the same family. */
  lemma SignedBaseAgrees(x: string)
    requires x in {"int", "short", "long", "long long"}
    ensures RangeOfBase("signed " + x) == RangeOfBase(x)
  {
    if x == "int" {
      assert "signed " + x == "signed int";
    } else if x == "short" {
      assert "signed " + x == "signed short";
    } else if x == "long" {
      assert "signed " + x == "signed long";
    } else {
      assert "signed " + x == "signed long long";
    }
  }

  /** "signed X" and "X" get the same range. */
  lemma SignedAgrees(s1: string, s2: string)
    requires !IsVoidSpelling(Normalised(s1)) && !IsVoidSpelling(Normalised(s2))
    requires BaseType(Normalised(s2)) in {"int", "short", "long", "long long"}
    requires BaseType(Normalised(s1)) == "signed " + BaseType(Normalised(s2))
    ensures GetRangeForType(s1) == GetRangeForType(s2)
  {
    SignedBaseAgrees(BaseType(Normalised(s2)));
  }

  /** Case does not matter: two spellings equal up to ASCII case get the same range. */
  lemma RangeIgnoresCase(a: string, b: string)
    requires Lower(a) == Lower(b)
    ensures GetRangeForType(a) == GetRangeForType(b)
  {
    StripLower(a);
    StripLower(b);
    LowerIdempotent(Strip(a));
    LowerIdempotent(Strip(b));
    calc {
      Normalised(a);
      Lower(Lower(Strip(a)));
      Lower(Strip(Lower(a)));
      Lower(Strip(Lower(b)));
      Lower(Lower(Strip(b)));
      Normalised(b);
    }
  }

  predicate AllSpace(w: string) {
    forall i :: 0 <= i < |w| ==> IsSpace(w[i])
  }

  lemma {:induction false} LStripSpacePrefix(w: string, s: string)
    requires AllSpace(w)
    ensures LStrip(w + s) == LStrip(s)
    decreases |w|
  {
    if w != [] {
      assert (w + s)[0] == w[0];
      assert (w + s)[1..] == w[1..] + s;
      LStripSpacePrefix(w[1..], s);
    } else {
      assert w + s == s;
    }
  }

  lemma {:induction false} RStripSpaceSuffix(s: string, w: string)
    requires AllSpace(w)
    ensures RStrip(s + w) == RStrip(s)
    decreases |w|
  {
    if w != [] {
      assert (s + w)[|s + w| - 1] == w[|w| - 1];
      assert (s + w)[..|s + w| - 1] == s + w[..|w| - 1];
      RStripSpaceSuffix(s, w[..|w| - 1]);
    } else {
      assert s + w == s;
    }
  }

  lemma {:induction false} LStripAppendSpace(s: string, w: string)
    requires AllSpace(w)
    ensures LStrip(s + w) == LStrip(s) + w || (LStrip(s) == [] && LStrip(s + w) == [])
    decreases |s|
  {
    if s == [] {
      LStripSpacePrefix(w, []);
      assert w + [] == w;
      assert [] + w == w;
    } else if IsSpace(s[0]) {
      assert (s + w)[1..] == s[1..] + w;
      LStripAppendSpace(s[1..], w);
    }
  }

  /** `strip()` removes whitespace added around a spelling. */
  lemma StripSurroundingSpace(t: string, before: string, after: string)
    requires AllSpace(before) && AllSpace(after)
    ensures Strip(before + t + after) == Strip(t)
  {
    assert before + t + after == before + (t + after);
    LStripSpacePrefix(before, t + after);
    LStripAppendSpace(t, after);
    if !(LStrip(t) == [] && LStrip(t + after) == []) {
      RStripSpaceSuffix(LStrip(t), after);
    }
  }

  /** Whitespace around a type spelling does not matter. */
  lemma RangeIgnoresSurroundingSpace(t: string, before: string, after: string)
    requires AllSpace(before) && AllSpace(after)
    ensures GetRangeForType(before + t + after) == GetRangeForType(t)
  {
    StripSurroundingSpace(t, before, after);
    assert Normalised(before + t + after) == Normalised(t);
  }

  /** Replace skips a prefix in which no occurrence of the pattern can start. */
  lemma {:induction false} ReplaceSkipsPrefix(p: string, s: string, pat: string, rep: string)
    requires pat != []
    requires forall i :: 0 <= i < |p| ==> p[i] != pat[0]
    ensures Replace(p + s, pat, rep) == p + Replace(s, pat, rep)
    decreases |p|
  {
    if p != [] {
      var ps := p + s;
      if |ps| < |pat| {
        assert |s| < |pat|;
        assert Replace(s, pat, rep) == s;
      } else {
        assert ps[..|pat|][0] == p[0];
        assert ps[..|pat|] != pat;
        assert ps[1..] == p[1..] + s;
        ReplaceSkipsPrefix(p[1..], s, pat, rep);
        assert [p[0]] + p[1..] == p;
      }
    } else {
      assert p + s == s;
    }
  }

  lemma ReplaceAtFront(pat: string, s: string, rep: string)
    requires pat != []
    ensures Replace(pat + s, pat, rep) == rep + Replace(s, pat, rep)
  {
    assert (pat + s)[..|pat|] == pat;
    assert (pat + s)[|pat|..] == s;
  }

  predicate IsNormalised(t: string) {
    Normalised(t) == t
  }

  lemma NormalisedQualified(q: string, n: string)
    requires q == "const " || q == "volatile "
    requires IsNormalised(n) && n != ""
    ensures Normalised(q + n) == q + n
  {
    LowerAppend(q, n);
    LowerIdempotent(Strip(n));
    assert Lower(q) == q;
    assert Strip(n) == n by { StripLower(n); LowerIdempotent(Strip(n)); }
    assert n[0] == Strip(n)[0];
    assert !IsSpace(n[|n| - 1]);
    assert !IsSpace((q + n)[0]);
    assert LStrip(q + n) == q + n;
    assert (q + n)[|q + n| - 1] == n[|n| - 1];
    assert RStrip(q + n) == q + n;
  }

  lemma BaseTypeConst(n: string)
    ensures BaseType("const " + n) == BaseType(n)
  {
    ReplaceAtFront("const ", n, "");
    assert "" + Replace(n, "const ", "") == Replace(n, "const ", "");
  }

  lemma BaseTypeVolatile(n: string)
    ensures BaseType("volatile " + n) == BaseType(n)
  {
    var v := "volatile ";
    assert forall i :: 0 <= i < |v| ==> v[i] != 'c';
    ReplaceSkipsPrefix(v, n, "const ", "");
    ReplaceAtFront(v, Replace(n, "const ", ""), "");
    assert "" + Replace(Replace(n, "const ", ""), v, "") == Replace(Replace(n, "const ", ""), v, "");
  }

  /** A "const " or "volatile " qualifier in front of a normalised, non-void spelling
      does not change its range. */
  lemma RangeIgnoresQualifier(q: string, n: string)
    requires q == "const " || q == "volatile "
    requires IsNormalised(n) && n != ""
    requires !IsVoidSpelling(n)
    ensures GetRangeForType(q + n) == GetRangeForType(n)
  {
    NormalisedQualified(q, n);
    QualifiedNotVoid(q, n);
    if q == "const " { BaseTypeConst(n); } else { BaseTypeVolatile(n); }
  }

  /** A qualified void spelling is not recognised as void: "const void" and
      "volatile void" have no range, while "void" is VOID. */
  lemma QualifiedVoidIsNA(q: string)
    requires q == "const " || q == "volatile "
    ensures GetRangeForType("void") == VoidRange
    ensures GetRangeForType(q + "void") == NoRange
  {
    VoidIsVoid();
    QualifiedVoidRange(q);
    VoidBaseNoRange();
  }

  lemma VoidIsVoid()
    ensures GetRangeForType("void") == VoidRange
  {
    VoidNormalised();
  }

  lemma QualifiedVoidRange(q: string)
    requires q == "const " || q == "volatile "
    ensures GetRangeForType(q + "void") == RangeOfBase(BaseType("void"))
  {
    VoidNormalised();
    QualifiedRange(q, "void");
  }

  lemma VoidBaseNoRange()
    ensures RangeOfBase(BaseType("void")) == NoRange
  {
    VoidBase();
    RangeOfBaseFamilies("void");
  }

  /** A qualified normalised spelling gets the range of its base, never VOID. */
  lemma QualifiedRange(q: string, n: string)
    requires q == "const " || q == "volatile "
    requires IsNormalised(n) && n != ""
    ensures GetRangeForType(q + n) == RangeOfBase(BaseType(n))
  {
    NormalisedQualified(q, n);
    QualifiedNotVoid(q, n);
    if q == "const " { BaseTypeConst(n); } else { BaseTypeVolatile(n); }
  }

  lemma VoidNormalised()
    ensures Normalised("void") == "void" && IsVoidSpelling("void")
  {
    StripVoid();
    LowerVoid();
  }

  lemma StripVoid()
    ensures Strip("void") == "void"
  {
    StripUnpadded("void");
  }

  lemma LowerVoid()
    ensures Lower("void") == "void"
  {
    var l := Lower("void");
    assert l[0] == 'v' && l[1] == 'o' && l[2] == 'i' && l[3] == 'd';
  }

  lemma VoidBase()
    ensures BaseType("void") == "void"
    ensures !IsFamily("void") && !Contains("void", "size_t")
  {
    BaseTypeVoid();
    VoidNotFamily();
    ContainsShort("void", "size_t");
  }

  lemma BaseTypeVoid()
    ensures BaseType("void") == "void"
  {
    VoidUnqualified();
    StripVoid();
  }

  lemma VoidNotFamily()
    ensures !IsFamily("void")
  {
  }

  lemma VoidUnqualified()
    ensures Replace(Replace("void", "const ", ""), "volatile ", "") == "void"
  {
    assert Replace("void", "const ", "") == "void";
  }

  /** The classification with the void test made on the spelling without its
      qualifiers, as every other test is: void spellings are VOID whatever
      qualifies them. */
  function GetRangeForTypeIntended(typeStr: string): (r: string)
    ensures r == VoidRange <==> IsVoidSpelling(BaseType(Normalised(typeStr)))
    ensures !IsVoidSpelling(Normalised(typeStr)) && !IsVoidSpelling(BaseType(Normalised(typeStr))) ==>
      r == GetRangeForType(typeStr)
  {
    var b := BaseType(Normalised(typeStr));
    if IsVoidSpelling(b) then VoidRange else RangeOfBase(b)
  }

  /** A "const " or "volatile " qualifier in front of a normalised spelling never
      changes its intended range, void spellings included. */
  lemma IntendedIgnoresQualifier(q: string, n: string)
    requires q == "const " || q == "volatile "
    requires IsNormalised(n) && n != ""
    ensures GetRangeForTypeIntended(q + n) == GetRangeForTypeIntended(n)
    ensures IsVoidSpelling(BaseType(n)) ==> GetRangeForTypeIntended(q + n) == VoidRange
  {
    NormalisedQualified(q, n);
    if q == "const " { BaseTypeConst(n); } else { BaseTypeVolatile(n); }
  }

  /** A qualified spelling is never a void spelling. */
  lemma QualifiedNotVoid(q: string, n: string)
    requires q == "const " || q == "volatile "
    ensures !IsVoidSpelling(q + n)
  {
    assert |q + n| > 5;
    assert (q + n)[..5] == q[..5];
    assert q[..5][2] == q[2] != 'i' == "void "[2];
    assert q + n != "void";
    assert !StartsWith(q + n, "void ");
  }
}
