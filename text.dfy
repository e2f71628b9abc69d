/** The Python `str` operations the analyser relies on, on `seq<char>`:
    prefix/suffix tests, `replace`, `split`, `rsplit(sep, 1)`, `join`, `strip`,
    ASCII `lower`/`upper`, decimal formatting (`str(n)`, `f"{n:02d}"`) and `int(s)`,
    plus `os.path.basename` and `os.path.splitext` over a given set of separators. */
module Text {
  import opened Wrappers

  /** No string occurs twice. */
  predicate Distinct(s: seq<string>) {
    forall i, j :: 0 <= i < j < |s| ==> s[i] != s[j]
  }

  predicate StartsWith(s: string, prefix: string) {
    prefix <= s
  }

  predicate EndsWith(s: string, suffix: string) {
    |suffix| <= |s| && s[|s| - |suffix|..] == suffix
  }

  lemma EndsWithAppend(a: string, b: string)
    ensures EndsWith(a + b, b)
  {
    assert (a + b)[|a + b| - |b|..] == b;
  }

  /** `sub in s` */
  predicate Contains(s: string, sub: string)
    decreases |s|
  {
    StartsWith(s, sub) || (s != [] && Contains(s[1..], sub))
  }

  lemma {:induction false} ContainsChar(s: string, c: char)
    ensures Contains(s, [c]) <==> c in s
    decreases |s|
  {
    if s != [] {
      ContainsChar(s[1..], c);
      assert s == [s[0]] + s[1..];
    }
  }

  /** `s.replace(a, b)` for single characters. */
  function ReplaceChar(s: string, a: char, b: char): (r: string)
    ensures |r| == |s|
    ensures forall i :: 0 <= i < |s| ==> r[i] == (if s[i] == a then b else s[i])
  {
    seq(|s|, i requires 0 <= i < |s| => if s[i] == a then b else s[i])
  }

  lemma ReplaceCharRemoves(s: string, a: char, b: char)
    requires a != b
    ensures a !in ReplaceChar(s, a, b)
  {
    var r := ReplaceChar(s, a, b);
    forall i | 0 <= i < |r| ensures r[i] != a { }
  }

  /** `s.replace(pat, rep)`: leftmost, non-overlapping occurrences. */
  function Replace(s: string, pat: string, rep: string): string
    requires pat != []
    decreases |s|
  {
    if |s| < |pat| then s
    else if s[..|pat|] == pat then rep + Replace(s[|pat|..], pat, rep)
    else [s[0]] + Replace(s[1..], pat, rep)
  }

  /** `s.split(c)` for a single-character separator: never empty. */
  function Split(s: string, c: char): (r: seq<string>)
    ensures |r| >= 1
    decreases |s|
  {
    if s == [] then [""]
    else
      var rest := Split(s[1..], c);
      if s[0] == c then [""] + rest
      else [[s[0]] + rest[0]] + rest[1..]
  }

  /** `sep.join(parts)` */
  function Join(parts: seq<string>, sep: string): string
    decreases |parts|
  {
    if parts == [] then ""
    else if |parts| == 1 then parts[0]
    else parts[0] + sep + Join(parts[1..], sep)
  }

  lemma {:induction false} JoinSplit(s: string, c: char)
    ensures Join(Split(s, c), [c]) == s
    decreases |s|
  {
    if s != [] {
      JoinSplit(s[1..], c);
      var rest := Split(s[1..], c);
      if s[0] == c {
        assert Join([""] + rest, [c]) == "" + [c] + Join(rest, [c]);
      } else {
        var r := [[s[0]] + rest[0]] + rest[1..];
        if |rest| == 1 {
          assert Join(r, [c]) == [s[0]] + rest[0];
        } else {
          assert r[1..] == rest[1..];
          assert Join(rest, [c]) == rest[0] + [c] + Join(rest[1..], [c]);
          assert Join(r, [c]) == [s[0]] + rest[0] + [c] + Join(rest[1..], [c]);
        }
      }
    }
  }

  lemma {:induction false} SplitPartsFree(s: string, c: char)
    ensures forall k :: 0 <= k < |Split(s, c)| ==> c !in Split(s, c)[k]
    decreases |s|
  {
    if s != [] {
      SplitPartsFree(s[1..], c);
    }
  }

  /** The first part of `s.split(c)` is the longest prefix of `s` without `c`. */
  lemma {:induction false} SplitFirst(s: string, c: char)
    ensures Split(s, c)[0] <= s
    ensures c !in Split(s, c)[0]
    ensures |Split(s, c)[0]| < |s| ==> s[|Split(s, c)[0]|] == c
    decreases |s|
  {
    if s != [] {
      SplitFirst(s[1..], c);
    }
  }

  /** `seg` is the text of `s` before its first `c`, or all of `s` when it has
      no `c`. */
  predicate IsFirstSegment(seg: string, s: string, c: char) {
    seg <= s && c !in seg && (|seg| == |s| || s[|seg|] == c)
  }

  /** A text has only one first segment. */
  lemma FirstSegmentUnique(a: string, b: string, s: string, c: char)
    requires IsFirstSegment(a, s, c) && IsFirstSegment(b, s, c)
    ensures a == b
  {
  }

  /** The first part of `a + c + b` split on `c` is `a` when `a` has no `c`. */
  lemma SplitAfterFree(a: string, c: char, b: string)
    requires c !in a
    ensures Split(a + [c] + b, c)[0] == a
  {
    var s := a + [c] + b;
    SplitFirst(s, c);
    var p := Split(s, c)[0];
    assert s[|a|] == c;
    assert |p| <= |a| by {
      if |p| > |a| {
        assert false;
      }
    }
    assert |p| >= |a| by {
      if |p| < |a| {
        assert false;
      }
    }
    assert p == s[..|p|] && a == s[..|a|];
  }

  /** A joined list ends with its last part. */
  lemma {:induction false} JoinEndsWithLast(parts: seq<string>, sep: string)
    requires parts != []
    ensures EndsWith(Join(parts, sep), parts[|parts| - 1])
    decreases |parts|
  {
    if |parts| > 1 {
      JoinEndsWithLast(parts[1..], sep);
      var rest := Join(parts[1..], sep);
      var last := parts[|parts| - 1];
      assert Join(parts, sep) == parts[0] + sep + rest;
      assert (parts[0] + sep + rest)[|parts[0] + sep + rest| - |last|..] == rest[|rest| - |last|..];
    }
  }

  /** A joined list starts with its first part, followed by the separator
      when more parts follow. */
  lemma JoinStartsWithFirst(parts: seq<string>, sep: string)
    requires parts != []
    ensures parts[0] <= Join(parts, sep)
    ensures |parts| > 1 ==> Join(parts, sep) == parts[0] + sep + Join(parts[1..], sep)
  {
  }

  /** The first three parts of a join, with the separators between them,
      are a prefix of the join that is followed by the separator or by nothing. */
  lemma JoinHead3(p: seq<string>, c: char)
    requires |p| > 2
    ensures var h := p[0] + [c] + p[1] + [c] + p[2];
            var s := Join(p, [c]);
            h <= s && (|h| == |s| || s[|h|] == c)
  {
    var h := p[0] + [c] + p[1] + [c] + p[2];
    var tail := Join(p[2..], [c]);
    JoinStartsWithFirst(p, [c]);
    JoinStartsWithFirst(p[1..], [c]);
    JoinStartsWithFirst(p[2..], [c]);
    assert p[1..][1..] == p[2..];
    assert Join(p, [c]) == p[0] + [c] + p[1] + [c] + tail;
    if |p| > 3 {
      assert tail == p[2] + [c] + Join(p[3..], [c]);
      assert Join(p, [c]) == h + [c] + Join(p[3..], [c]);
    } else {
      assert tail == p[2];
    }
  }

  /** Text without the separator splits into itself alone. */
  lemma {:induction false} SplitFree(b: string, c: char)
    requires c !in b
    ensures Split(b, c) == [b]
    decreases |b|
  {
    if b != [] {
      SplitFree(b[1..], c);
      assert [b[0]] + b[1..] == b;
    }
  }

  /** Splitting `a + c + b` where `a` has no `c` gives `a`, then the parts of `b`. */
  lemma {:induction false} SplitCons(a: string, c: char, b: string)
    requires c !in a
    ensures Split(a + [c] + b, c) == [a] + Split(b, c)
    decreases |a|
  {
    var s := a + [c] + b;
    if a == [] {
      assert s[1..] == b;
    } else {
      SplitCons(a[1..], c, b);
      assert s[1..] == a[1..] + [c] + b;
      assert [a[0]] + a[1..] == a;
    }
  }

  /** `c in s` iff `s.split(c)` has at least two parts. */
  lemma SplitCount(s: string, c: char)
    ensures |Split(s, c)| >= 2 <==> c in s
  {
    if c in s {
      SplitFirst(s, c);
      var p := Split(s, c)[0];
      assert s == p + [c] + s[|p| + 1..];
      SplitCons(p, c, s[|p| + 1..]);
    } else {
      SplitFree(s, c);
    }
  }

  /** `s.split(sep)` for a non-empty separator string. */
  function SplitOn(s: string, sep: string): (r: seq<string>)
    requires sep != []
    ensures |r| >= 1
    decreases |s|
  {
    if |s| < |sep| then [s]
    else if s[..|sep|] == sep then [""] + SplitOn(s[|sep|..], sep)
    else
      var rest := SplitOn(s[1..], sep);
      [[s[0]] + rest[0]] + rest[1..]
  }

  /** When no occurrence of `sep` starts inside `a`, splitting `a + sep + rest`
      on `sep` gives `a` and then the parts of `rest`. */
  lemma {:induction false} SplitOnAfter(a: string, sep: string, rest: string)
    requires sep != []
    requires forall k :: 0 <= k < |a| ==> !StartsWith((a + sep + rest)[k..], sep)
    ensures SplitOn(a + sep + rest, sep) == [a] + SplitOn(rest, sep)
    decreases |a|
  {
    var s := a + sep + rest;
    if a == [] {
      assert s == sep + rest;
      assert s[..|sep|] == sep && s[|sep|..] == rest;
    } else {
      assert s[0..] == s;
      assert s[..|sep|] != sep;
      var t := a[1..] + sep + rest;
      assert s[1..] == t;
      forall k | 0 <= k < |a[1..]|
        ensures !StartsWith(t[k..], sep)
      {
        assert t[k..] == s[k + 1..];
      }
      SplitOnAfter(a[1..], sep, rest);
      assert [a[0]] + a[1..] == a;
    }
  }

  /** Text without the separator's first character is a single part. */
  lemma {:induction false} SplitOnWithout(s: string, sep: string)
    requires sep != [] && sep[0] !in s
    ensures SplitOn(s, sep) == [s]
    decreases |s|
  {
    if |s| >= |sep| {
      assert s[..|sep|][0] == s[0];
      SplitOnWithout(s[1..], sep);
      assert [s[0]] + s[1..] == s;
    }
  }

  /** Joining parts that lack the separator's first character and splitting
      again gives the parts back. */
  lemma {:induction false} SplitOnJoin(parts: seq<string>, sep: string)
    requires sep != [] && parts != []
    requires forall k :: 0 <= k < |parts| ==> sep[0] !in parts[k]
    ensures SplitOn(Join(parts, sep), sep) == parts
    decreases |parts|
  {
    if |parts| == 1 {
      SplitOnWithout(parts[0], sep);
    } else {
      var rest := Join(parts[1..], sep);
      var s := parts[0] + sep + rest;
      assert Join(parts, sep) == s;
      forall k | 0 <= k < |parts[0]|
        ensures !StartsWith(s[k..], sep)
      {
        assert s[k..][0] == parts[0][k];
      }
      SplitOnAfter(parts[0], sep, rest);
      SplitOnJoin(parts[1..], sep);
      assert [parts[0]] + parts[1..] == parts;
    }
  }

  /** Text shorter than `sub` cannot contain it. */
  lemma {:induction false} ContainsShort(s: string, sub: string)
    requires |s| < |sub|
    ensures !Contains(s, sub)
    decreases |s|
  {
    if s != [] {
      ContainsShort(s[1..], sub);
    }
  }

  /** What a suffix contains, the whole contains. */
  lemma {:induction false} ContainsInSuffix(s: string, a: nat, sub: string)
    requires a <= |s| && Contains(s[a..], sub)
    ensures Contains(s, sub)
    decreases a
  {
    if a > 0 {
      assert s[1..][a - 1..] == s[a..];
      ContainsInSuffix(s[1..], a - 1, sub);
    }
  }

  /** What a prefix contains, the whole contains. */
  lemma {:induction false} ContainsInPrefix(s: string, b: nat, sub: string)
    requires b <= |s| && Contains(s[..b], sub)
    ensures Contains(s, sub)
    decreases |s|
  {
    if !StartsWith(s[..b], sub) {
      assert s[..b][1..] == s[1..][..b - 1];
      ContainsInPrefix(s[1..], b - 1, sub);
    }
  }

  /** The last part of `s.split(sep)` does not contain `sep`; a split into one
      part leaves `s` whole. */
  lemma {:induction false} SplitOnLastFree(s: string, sep: string)
    requires sep != []
    ensures !Contains(SplitOn(s, sep)[|SplitOn(s, sep)| - 1], sep)
    ensures |SplitOn(s, sep)| == 1 ==> SplitOn(s, sep)[0] == s
    decreases |s|
  {
    if |s| < |sep| {
      ContainsShort(s, sep);
    } else if s[..|sep|] == sep {
      SplitOnLastFree(s[|sep|..], sep);
      var rest := SplitOn(s[|sep|..], sep);
      assert SplitOn(s, sep) == [""] + rest;
      assert SplitOn(s, sep)[|rest|] == rest[|rest| - 1];
    } else {
      SplitOnLastFree(s[1..], sep);
      var rest := SplitOn(s[1..], sep);
      var r := SplitOn(s, sep);
      assert r == [[s[0]] + rest[0]] + rest[1..];
      if |rest| == 1 {
        assert [s[0]] + rest[0] == s;
        assert r == [s];
        assert !StartsWith(s, sep);
      } else {
        assert r[|r| - 1] == rest[|rest| - 1];
      }
    }
  }

  /** `strip()` keeps out whatever its argument lacks: it returns a
      contiguous piece of it. */
  lemma StripKeepsOut(s: string, sub: string)
    requires !Contains(s, sub)
    ensures !Contains(Strip(s), sub)
  {
    var l := LStrip(s);
    var y := Strip(s);
    assert y == l[..|y|];
    if Contains(y, sub) {
      ContainsInPrefix(l, |y|, sub);
      ContainsInSuffix(s, |s| - |l|, sub);
    }
  }

  /** What a middle piece contains, the whole contains. */
  lemma ContainsInMiddle(x: string, y: string, z: string, sub: string)
    requires Contains(y, sub)
    ensures Contains(x + y + z, sub)
  {
    var s := x + y + z;
    assert s[..|x| + |y|][|x|..] == y;
    ContainsInSuffix(s[..|x| + |y|], |x|, sub);
    ContainsInPrefix(s, |x| + |y|, sub);
  }

  /** `strip()` returns a piece of its argument. */
  lemma StripInside(s: string)
    ensures Contains(s, Strip(s))
  {
    var l := LStrip(s);
    var y := Strip(s);
    assert y == l[..|y|];
    assert Contains(l[..|y|], y);
    ContainsInPrefix(l, |y|, y);
    assert s[|s| - |l|..] == l;
    ContainsInSuffix(s, |s| - |l|, y);
  }

  /** `strip()` is idempotent. */
  lemma StripIdempotent(s: string)
    ensures Strip(Strip(s)) == Strip(s)
  {
    var y := Strip(s);
    if y != [] {
      var l := LStrip(s);
      assert y == l[..|y|];
      StripUnpadded(y);
    }
  }

  /** Stripping text that lacks `sub` gives a stripped text that lacks `sub`. */
  lemma StripClean(s: string, sub: string)
    requires !Contains(s, sub)
    ensures Strip(Strip(s)) == Strip(s) && !Contains(Strip(s), sub)
  {
    StripKeepsOut(s, sub);
    StripIdempotent(s);
  }

  /** Index of the last character of `s` that is in `cs`, or -1 (`str.rfind`). */
  function LastIndexIn(s: string, cs: set<char>): (r: int)
    ensures -1 <= r < |s|
    ensures r >= 0 ==> s[r] in cs
    ensures forall k :: r < k < |s| ==> s[k] !in cs
    decreases |s|
  {
    if s == [] then -1
    else if s[|s| - 1] in cs then |s| - 1
    else LastIndexIn(s[..|s| - 1], cs)
  }

  /** `s.rsplit(c, 1)`: one part when `c` does not occur, else the text before and
      after its last occurrence. */
  function RSplitOnce(s: string, c: char): (r: seq<string>)
    ensures 1 <= |r| <= 2
    ensures |r| == 1 <==> c !in s
    ensures |r| == 1 ==> r[0] == s
  {
    var i := LastIndexIn(s, {c});
    if i < 0 then [s] else [s[..i], s[i + 1..]]
  }

  /** Two parts are the text before and after the last `c`. */
  lemma RSplitOnceParts(s: string, c: char)
    ensures var r := RSplitOnce(s, c);
      |r| == 2 ==> s == r[0] + [c] + r[1] && c !in r[1]
  {
    var i := LastIndexIn(s, {c});
    if i >= 0 {
      assert s == s[..i] + [c] + s[i + 1..];
    }
  }

  lemma RSplitOnceJoined(a: string, c: char, b: string)
    requires c !in b
    ensures RSplitOnce(a + [c] + b, c) == [a, b]
  {
    var s := a + [c] + b;
    var i := LastIndexIn(s, {c});
    assert s[|a|] == c;
    assert i == |a|;
    assert s[..i] == a;
    assert s[i + 1..] == b;
  }

  /** Python's `str.isspace` on the ASCII range. */
  predicate IsSpace(c: char) {
    c == ' ' || c == '\t' || c == '\n' || c == '\r' || c == '\U{B}' || c == '\U{C}'
    || c == '\U{1C}' || c == '\U{1D}' || c == '\U{1E}' || c == '\U{1F}'
  }

  function LStrip(s: string): (r: string)
    ensures |r| <= |s| && r == s[|s| - |r|..]
    ensures r == [] || !IsSpace(r[0])
    decreases |s|
  {
    if s != [] && IsSpace(s[0]) then LStrip(s[1..]) else s
  }

  function RStrip(s: string): (r: string)
    ensures |r| <= |s| && r == s[..|r|]
    ensures r == [] || !IsSpace(r[|r| - 1])
    decreases |s|
  {
    if s != [] && IsSpace(s[|s| - 1]) then RStrip(s[..|s| - 1]) else s
  }

  /** `s.strip()` */
  function Strip(s: string): string {
    RStrip(LStrip(s))
  }

  /** A string that neither starts nor ends with whitespace is its own `strip()`. */
  lemma StripUnpadded(s: string)
    requires s != [] && !IsSpace(s[0]) && !IsSpace(s[|s| - 1])
    ensures Strip(s) == s
  {
    assert LStrip(s) == s;
  }

  /** An unpadded string followed by a newline strips back to itself. */
  lemma StripTrailingNewline(s: string)
    requires s != [] && !IsSpace(s[0]) && !IsSpace(s[|s| - 1])
    ensures Strip(s + "\n") == s
  {
    var t := s + "\n";
    assert LStrip(t) == t;
    assert t[..|t| - 1] == s;
    assert RStrip(t) == RStrip(s);
  }

  function LowerChar(c: char): char {
    if 'A' <= c <= 'Z' then (c as int + 32) as char else c
  }

  function UpperChar(c: char): char {
    if 'a' <= c <= 'z' then (c as int - 32) as char else c
  }

  /** `s.lower()` on ASCII letters. */
  function Lower(s: string): (r: string)
    ensures |r| == |s|
    ensures forall i :: 0 <= i < |s| ==> r[i] == LowerChar(s[i])
  {
    seq(|s|, i requires 0 <= i < |s| => LowerChar(s[i]))
  }

  /** `s.upper()` on ASCII letters. */
  function Upper(s: string): (r: string)
    ensures |r| == |s|
    ensures forall i :: 0 <= i < |s| ==> r[i] == UpperChar(s[i])
  {
    seq(|s|, i requires 0 <= i < |s| => UpperChar(s[i]))
  }

  lemma LowerIdempotent(s: string)
    ensures Lower(Lower(s)) == Lower(s)
  {
  }

  lemma LowerAppend(a: string, b: string)
    ensures Lower(a + b) == Lower(a) + Lower(b)
  {
  }

  lemma LowerPreservesSpace(c: char)
    ensures IsSpace(LowerChar(c)) <==> IsSpace(c)
  {
  }

  lemma {:induction false} LStripLower(s: string)
    ensures LStrip(Lower(s)) == Lower(LStrip(s))
    decreases |s|
  {
    if s != [] {
      LowerPreservesSpace(s[0]);
      if IsSpace(s[0]) {
        assert Lower(s)[1..] == Lower(s[1..]);
        LStripLower(s[1..]);
      }
    }
  }

  lemma {:induction false} RStripLower(s: string)
    ensures RStrip(Lower(s)) == Lower(RStrip(s))
    decreases |s|
  {
    if s != [] {
      LowerPreservesSpace(s[|s| - 1]);
      if IsSpace(s[|s| - 1]) {
        assert Lower(s)[..|s| - 1] == Lower(s[..|s| - 1]);
        RStripLower(s[..|s| - 1]);
      }
    }
  }

  /** Stripping and lower-casing commute, so `s.strip().lower() == s.lower().strip()`. */
  lemma StripLower(s: string)
    ensures Strip(Lower(s)) == Lower(Strip(s))
  {
    LStripLower(s);
    RStripLower(LStrip(s));
  }

  function DigitChar(d: nat): (c: char)
    requires d < 10
    ensures '0' <= c <= '9'
  {
    "0123456789"[d]
  }

  predicate IsDigit(c: char) {
    '0' <= c <= '9'
  }

  /** `str(n)` for a natural number. */
  function NatToString(n: nat): (r: string)
    ensures r != []
    ensures forall i :: 0 <= i < |r| ==> IsDigit(r[i])
    decreases n
  {
    if n < 10 then [DigitChar(n)] else NatToString(n / 10) + [DigitChar(n % 10)]
  }

  /** The value of a non-empty run of decimal digits. */
  function DigitsValue(s: string): nat
    requires s != []
    requires forall i :: 0 <= i < |s| ==> IsDigit(s[i])
    decreases |s|
  {
    assert IsDigit(s[|s| - 1]);
    var last := (s[|s| - 1] as int - '0' as int) as nat;
    if |s| == 1 then last else DigitsValue(s[..|s| - 1]) * 10 + last
  }

  lemma {:induction false} DigitsOfNat(n: nat)
    ensures DigitsValue(NatToString(n)) == n
    decreases n
  {
    if n >= 10 {
      var s := NatToString(n);
      DigitsOfNat(n / 10);
      assert s[..|s| - 1] == NatToString(n / 10);
    }
  }

  /** `str(n)` is injective: distinct numbers have distinct decimal strings. */
  lemma NatToStringInjective(m: nat, n: nat)
    requires NatToString(m) == NatToString(n)
    ensures m == n
  {
    DigitsOfNat(m);
    DigitsOfNat(n);
  }

  /** `str(i)` for an integer. */
  function IntToString(i: int): string {
    if i < 0 then "-" + NatToString(-i) else NatToString(i)
  }

  /** `f"{n:02d}"` for a non-negative index: at least two digits, zero-padded. */
  function Pad2(n: nat): (r: string)
    ensures |r| >= 2
    ensures forall i :: 0 <= i < |r| ==> IsDigit(r[i])
    ensures n < 10 ==> |r| == 2 && r[0] == '0'
    ensures n >= 10 ==> r == NatToString(n)
  {
    if n < 10 then "0" + NatToString(n) else NatToString(n)
  }

  lemma Pad2Value(n: nat)
    ensures DigitsValue(Pad2(n)) == n
  {
    DigitsOfNat(n);
    if n < 10 {
      assert Pad2(n)[..1] == "0";
    }
  }

  lemma NoDigitIn(s: string, c: char)
    requires forall i :: 0 <= i < |s| ==> IsDigit(s[i])
    requires !IsDigit(c)
    ensures c !in s
  {
  }

  predicate AllDigits(s: string) {
    s != [] && forall i :: 0 <= i < |s| ==> IsDigit(s[i])
  }

  /** `int(s)`: surrounding whitespace, an optional sign and decimal digits; None where
      Python raises ValueError. */
  function ParseInt(s: string): Option<int> {
    var t := Strip(s);
    if t != [] && (t[0] == '-' || t[0] == '+') then
      if AllDigits(t[1..]) then
        var v: int := DigitsValue(t[1..]);
        Some(if t[0] == '-' then -v else v)
      else None
    else if AllDigits(t) then Some(DigitsValue(t))
    else None
  }

  /** Plain decimal digits parse to their value. */
  lemma ParseDigits(s: string)
    requires AllDigits(s)
    ensures ParseInt(s) == Some(DigitsValue(s))
  {
    assert Strip(s) == s;
  }

  lemma ParseNatString(n: nat)
    ensures ParseInt(NatToString(n)) == Some(n)
  {
    DigitsOfNat(n);
    ParseDigits(NatToString(n));
  }

  /** `os.path.basename(p)` where `seps` are the platform's separators: the
      characters after the last separator. */
  function Basename(p: string, seps: set<char>): string
    decreases |p|
  {
    if p == [] || p[|p| - 1] in seps then []
    else Basename(p[..|p| - 1], seps) + [p[|p| - 1]]
  }

  /** The base name is the tail of the path after its last separator. */
  lemma {:induction false} BasenameTail(p: string, seps: set<char>)
    ensures Basename(p, seps) == p[LastIndexIn(p, seps) + 1..]
    decreases |p|
  {
    if p != [] && p[|p| - 1] !in seps {
      var q := p[..|p| - 1];
      var l := LastIndexIn(q, seps);
      assert LastIndexIn(p, seps) == l;
      BasenameTail(q, seps);
      assert p[l + 1..] == q[l + 1..] + [p[|p| - 1]];
    }
  }

  /** The base name holds no separator, ends the path, and is preceded in the path
      by a separator unless it is the whole path. */
  lemma BasenameIsSuffix(p: string, seps: set<char>)
    ensures forall k :: 0 <= k < |Basename(p, seps)| ==> Basename(p, seps)[k] !in seps
    ensures EndsWith(p, Basename(p, seps))
    ensures |Basename(p, seps)| < |p| ==> p[|p| - |Basename(p, seps)| - 1] in seps
  {
    BasenameTail(p, seps);
  }

  /** `os.path.splitext(p)`: the extension starts at the last dot of the last path
      component, unless every character before that dot in the component is a dot. */
  function Splitext(p: string, seps: set<char>): (r: (string, string))
    ensures r.0 + r.1 == p
    ensures r.1 != [] ==> r.1[0] == '.' && '.' !in r.1[1..]
  {
    var s := LastIndexIn(p, seps);
    var d := LastIndexIn(p, {'.'});
    if d > s && exists k :: s + 1 <= k < d && p[k] != '.' then
      assert p == p[..d] + p[d..];
      assert forall k :: 1 <= k < |p[d..]| ==> p[d..][k] == p[d + k];
      (p[..d], p[d..])
    else (p, "")
  }

  /** `int(s.rsplit(":", 1)[1])`: None where Python raises, that is when `s` has
      no ":" or the text after its last ":" is not an integer. */
  function TrailingInt(s: string): (r: Option<int>)
    ensures ':' !in s ==> r == None
  {
    var parts := RSplitOnce(s, ':');
    if |parts| < 2 then None else ParseInt(parts[1])
  }

  /** `os.path.splitext(name)[0]` when `name` has an extension; an empty or
      extensionless name is returned as it is. */
  function StripExt(name: string, seps: set<char>): string {
    if name == "" then name
    else
      var (root, ext) := Splitext(name, seps);
      if ext != "" then root else name
  }

  /** Only the last extension goes: the name is the stripped text followed by a
      dot-led tail without another dot, and a name without an extension (the
      empty name among them) is unchanged. */
  lemma StripExtMeaning(name: string, seps: set<char>)
    ensures var r := StripExt(name, seps);
      r <= name &&
      (r != name ==> name[|r|] == '.' && '.' !in name[|r| + 1..]) &&
      (Splitext(name, seps).1 == "" ==> r == name)
  {
    var (root, ext) := Splitext(name, seps);
    if name != "" && ext != "" {
      assert name == root + ext;
      assert name[|root| + 1..] == ext[1..];
    }
  }
}
