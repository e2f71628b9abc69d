/** The parts of the LLM client that do not depend on the model server: cutting a
    function's source out of its file by line range, the guards that answer ""
    for empty source without asking the model, picking the Mermaid code out of a
    fenced reply, and the loop that records a description and a flowchart per
    function. The file system and the server call are parameters. */
module LlmClient {
  import opened Wrappers
  import opened Text
  import opened Paths
  import opened Records

  /** The lines of the file at a path, each with its terminator as `readlines()`
      returns them; None where the path is not a readable file. */
  type Reader = string -> Option<seq<string>>

  /** The model server: the stripped reply to a prompt (whose text is
      `PromptText`), "" when the call fails. */
  type Model = Prompt -> string

  // ------------------------------------------------------------ source slicing

  /** `"".join(lines)` */
  function Joined(lines: seq<string>): string
    decreases |lines|
  {
    if lines == [] then "" else Joined(lines[..|lines| - 1]) + lines[|lines| - 1]
  }

  lemma {:induction false} JoinedAppend(a: seq<string>, b: seq<string>)
    ensures Joined(a + b) == Joined(a) + Joined(b)
    decreases |b|
  {
    if b == [] {
      assert a + b == a;
    } else {
      var n := |b| - 1;
      assert (a + b)[..|a + b| - 1] == a + b[..n];
      assert (a + b)[|a + b| - 1] == b[n];
      JoinedAppend(a, b[..n]);
    }
  }

  function Min(a: int, b: int): int {
    if a < b then a else b
  }

  /** `int(loc.get("line", 1))` */
  function LineStart(loc: Location): int {
    loc.line.GetOr(1)
  }

  /** `int(loc.get("endLine", line_start))` */
  function LineEnd(loc: Location): int {
    loc.endLine.GetOr(LineStart(loc))
  }

  /** The text of lines `start` to `end` of a file, counted from 1 and both
      included, cut at the end of the file, joined and stripped; "" for a start
      below 1, an end before the start or a start past the end of the file. */
  function SourceText(lines: seq<string>, start: int, end: int): (r: string)
    ensures Strip(r) == r
    ensures start < 1 || end < start || start > |lines| ==> r == ""
  {
    if start < 1 || end < start || start - 1 >= Min(|lines|, end) then ""
    else
      var text := Joined(lines[start - 1..Min(|lines|, end)]);
      StripIdempotent(text);
      Strip(text)
  }

  /** Whatever range is asked for, the text is a piece of the file. */
  lemma SourceTextInFile(lines: seq<string>, start: int, end: int)
    ensures Contains(Joined(lines), SourceText(lines, start, end))
  {
    if start < 1 || end < start || start - 1 >= Min(|lines|, end) {
      assert StartsWith(Joined(lines), "");
    } else {
      var a := start - 1;
      var b := Min(|lines|, end);
      assert lines == lines[..a] + lines[a..b] + lines[b..];
      JoinedAppend(lines[..a] + lines[a..b], lines[b..]);
      JoinedAppend(lines[..a], lines[a..b]);
      var mid := Joined(lines[a..b]);
      StripInside(mid);
      ContainsInMiddle(Joined(lines[..a]), mid, Joined(lines[b..]), Strip(mid));
    }
  }

  /** A range of one line is that line, stripped. */
  lemma SourceTextOneLine(lines: seq<string>, line: int)
    requires 1 <= line <= |lines|
    ensures SourceText(lines, line, line) == Strip(lines[line - 1])
  {
    var x := lines[line - 1];
    assert Min(|lines|, line) == line;
    assert lines[line - 1..line] == [x];
    assert SourceText(lines, line, line) == Strip(Joined([x]));
    assert [x][..0] == [];
    assert Joined([x]) == x;
  }

  /** An end line past the end of the file reads to the last line. */
  lemma SourceTextClamped(lines: seq<string>, start: int, end: int)
    requires end >= |lines| >= start
    ensures SourceText(lines, start, end) == SourceText(lines, start, |lines|)
  {
    assert Min(|lines|, end) == Min(|lines|, |lines|);
  }

  /** `extract_source(base_path, loc)`; None where `loc["file"]` raises KeyError.
      A file that cannot be read gives "", a readable one the text of the lines
      from "line" (1 when missing) to "endLine" (the start line when missing). */
  function ExtractSource(os: Os, read: Reader, basePath: string, loc: Location): (r: Option<string>)
    ensures r.None? <==> loc.file.None?
    ensures r.Some? ==> Strip(r.value) == r.value
    ensures r.Some? && read(NormPath(os, loc.file.value, basePath)).None? ==> r.value == ""
    ensures r.Some? && read(NormPath(os, loc.file.value, basePath)).Some? ==>
      r.value == SourceText(read(NormPath(os, loc.file.value, basePath)).value, LineStart(loc), LineEnd(loc))
  {
    match loc.file
    case None => None
    case Some(file) =>
      match read(NormPath(os, file, basePath))
      case None => Some("")
      case Some(lines) => Some(SourceText(lines, LineStart(loc), LineEnd(loc)))
  }

  // ------------------------------------------------------------ model prompts

  /** The two questions put to the model, each about one function's source. */
  datatype Prompt = DescribeFunction(source: string) | DrawFlowchart(source: string)

  const DescriptionHead: string := "Describe this C++ function in one short sentence (what it does, not how):\n\n```cpp\n"
  const DescriptionTail: string := "\n```\n\nOne-line description:"
  const FlowchartHead: string := "Generate a Mermaid flowchart for this C++ function. Use flowchart TD or graph TD.\nShow control flow: conditionals, loops, function calls. Output ONLY valid Mermaid code, no extra text.\n\n```cpp\n"
  const FlowchartTail: string := "\n```\n\nMermaid flowchart:"

  /** The text sent to the server for a prompt. */
  function PromptText(p: Prompt): string {
    match p
    case DescribeFunction(source) => DescriptionHead + source + DescriptionTail
    case DrawFlowchart(source) => FlowchartHead + source + FlowchartTail
  }

  /** Every prompt quotes its source in full. */
  lemma PromptQuotesSource(p: Prompt)
    ensures Contains(PromptText(p), p.source)
  {
    assert StartsWith(p.source, p.source);
    match p
    case DescribeFunction(source) =>
      ContainsInMiddle(DescriptionHead, source, DescriptionTail, source);
    case DrawFlowchart(source) =>
      ContainsInMiddle(FlowchartHead, source, FlowchartTail, source);
  }

  /** `get_description(source, config)`: "" for empty source whatever the model
      would answer; otherwise the model's answer to the description prompt. */
  function GetDescription(source: string, model: Model): (r: string)
    ensures source == "" ==> r == ""
    ensures source != "" ==> r == model(DescribeFunction(source))
  {
    if source == "" then "" else model(DescribeFunction(source))
  }

  /** `get_flowchart(source, config)`: "" for empty source whatever the model
      would answer; otherwise the model's reply to the flowchart prompt as the
      fence scan of `FenceAsWritten` cuts it. */
  function GetFlowchart(source: string, model: Model): (r: string)
    ensures source == "" ==> r == ""
    ensures source != "" ==> r == FenceAsWritten(model(DrawFlowchart(source)))
  {
    if source == "" then "" else FenceAsWritten(model(DrawFlowchart(source)))
  }

  // ------------------------------------------------------------ fenced replies

  const Fence: string := "```"

  /** A part that mentions "mermaid" in any case. */
  predicate MentionsMermaid(p: string) {
    Contains(Lower(p), "mermaid")
  }

  /** A part whose stripped text opens with a Mermaid diagram keyword. */
  predicate IsDiagram(p: string) {
    StartsWith(Strip(p), "flowchart") || StartsWith(Strip(p), "graph")
  }

  /** What the scan over the parts of a fenced reply returns from part `i` on,
      or the whole reply once it runs off the end. */
  function ScanFrom(parts: seq<string>, i: nat, out: string): string
    decreases |parts| - i
  {
    if i >= |parts| then out
    else if MentionsMermaid(parts[i]) && i + 1 < |parts| then Strip(parts[i + 1])
    else if IsDiagram(parts[i]) then Strip(parts[i])
    else ScanFrom(parts, i + 1, out)
  }

  /** The reply as the code extracts it (src/llm_client.py:88-95). */
  function FenceAsWritten(out: string): string {
    if Contains(out, Fence) then ScanFrom(SplitOn(out, Fence), 0, out) else out
  }

  /** The scan loop of `get_flowchart`. */
  method ExtractFence(out: string) returns (r: string)
    ensures r == FenceAsWritten(out)
  {
    if !Contains(out, Fence) {
      return out;
    }
    var parts := SplitOn(out, Fence);
    var i := 0;
    while i < |parts|
      invariant 0 <= i <= |parts|
      invariant ScanFrom(parts, i, out) == ScanFrom(parts, 0, out)
    {
      if MentionsMermaid(parts[i]) && i + 1 < |parts| {
        return Strip(parts[i + 1]);
      }
      if IsDiagram(parts[i]) {
        return Strip(parts[i]);
      }
      i := i + 1;
    }
    return out;
  }

  /** Either the reply comes back whole, or what comes back is a stripped part. */
  lemma {:induction false} ScanFromShape(parts: seq<string>, i: nat, out: string)
    ensures ScanFrom(parts, i, out) == out || Strip(ScanFrom(parts, i, out)) == ScanFrom(parts, i, out)
    decreases |parts| - i
  {
    if i < |parts| {
      if MentionsMermaid(parts[i]) && i + 1 < |parts| {
        StripIdempotent(parts[i + 1]);
      } else if IsDiagram(parts[i]) {
        StripIdempotent(parts[i]);
      } else {
        ScanFromShape(parts, i + 1, out);
      }
    }
  }

  /** A reply without a fence comes back whole; otherwise the result is the
      reply or a stripped fence part. */
  lemma FenceAsWrittenShape(out: string)
    ensures !Contains(out, Fence) ==> FenceAsWritten(out) == out
    ensures FenceAsWritten(out) == out || Strip(FenceAsWritten(out)) == FenceAsWritten(out)
  {
    if Contains(out, Fence) {
      ScanFromShape(SplitOn(out, Fence), 0, out);
    }
  }

  /** A fence without a language tag whose body opens with a diagram keyword
      gives back that body, stripped. */
  lemma FenceAsWrittenUntagged(body: string)
    requires '`' !in body && IsDiagram(body) && !MentionsMermaid(body)
    ensures FenceAsWritten(Fence + body + Fence) == Strip(body)
  {
    var out := Fence + body + Fence;
    UntaggedParts(body);
    var parts := SplitOn(out, Fence);
    assert parts[0] == "" && parts[1] == body;
    EmptyPartSkipped();
    assert ScanFrom(parts, 1, out) == Strip(body);
    assert ScanFrom(parts, 0, out) == ScanFrom(parts, 1, out);
  }

  /** An empty part neither mentions "mermaid" nor opens a diagram. */
  lemma EmptyPartSkipped()
    ensures !MentionsMermaid("") && !IsDiagram("")
  {
    ContainsShort(Lower(""), "mermaid");
    assert Strip("") == "";
  }

  /** The parts of a fence without a language tag: "", its body, and "". */
  lemma UntaggedParts(body: string)
    requires '`' !in body
    ensures Contains(Fence + body + Fence, Fence)
    ensures SplitOn(Fence + body + Fence, Fence) == ["", body, ""]
  {
    assert Fence + body + Fence == "" + Fence + (body + Fence + "");
    assert StartsWith(Fence, Fence);
    ContainsInMiddle("", Fence, body + Fence + "", Fence);
    SplitOnAfter("", Fence, body + Fence + "");
    NoFenceInside(body, "");
    SplitOnAfter(body, Fence, "");
  }

  /** A reply in the shape the prompt asks for: optional prose, then the code in
      a fence tagged "mermaid". */
  function TaggedBlock(prose: string, code: string): string {
    prose + Fence + "mermaid\n" + code + "\n" + Fence
  }

  /** Text without a backtick has no fence starting inside it. */
  lemma NoFenceInside(a: string, rest: string)
    requires '`' !in a
    ensures forall k :: 0 <= k < |a| ==> !StartsWith((a + Fence + rest)[k..], Fence)
  {
    forall k | 0 <= k < |a|
      ensures !StartsWith((a + Fence + rest)[k..], Fence)
    {
      assert (a + Fence + rest)[k..][0] == a[k];
    }
  }

  /** The parts of a tagged block: the prose, the tagged fence body, and the
      empty text after the closing fence. */
  lemma TaggedBlockParts(prose: string, code: string)
    requires '`' !in prose && '`' !in code
    ensures Contains(TaggedBlock(prose, code), Fence)
    ensures SplitOn(TaggedBlock(prose, code), Fence) == [prose, "mermaid\n" + code + "\n", ""]
  {
    var body := "mermaid\n" + code + "\n";
    assert '`' !in body;
    assert TaggedBlock(prose, code) == prose + Fence + (body + Fence + "");
    assert StartsWith(Fence, Fence);
    ContainsInMiddle(prose, Fence, body + Fence + "", Fence);
    NoFenceInside(prose, body + Fence + "");
    SplitOnAfter(prose, Fence, body + Fence + "");
    NoFenceInside(body, "");
    SplitOnAfter(body, Fence, "");
  }

  /** As written, the scan takes the part after the one that mentions
      "mermaid". For a reply that is exactly one tagged fence that part is what
      follows the closing fence, so the code is lost and "" comes back. */
  lemma FenceAsWrittenLosesCode(code: string)
    requires '`' !in code
    ensures FenceAsWritten(TaggedBlock("", code)) == ""
  {
    TaggedBlockParts("", code);
    var out := TaggedBlock("", code);
    var parts := SplitOn(out, Fence);
    var body := "mermaid\n" + code + "\n";
    assert Lower(body)[..7] == "mermaid";
    assert MentionsMermaid(body);
    assert !MentionsMermaid("") && !IsDiagram("");
    assert ScanFrom(parts, 0, out) == ScanFrom(parts, 1, out) == Strip(parts[2]);
  }

  /** Through `get_flowchart`: a reply that is one tagged fence gives "". */
  lemma GetFlowchartOfTaggedBlock(source: string, model: Model, code: string)
    requires source != "" && '`' !in code
    requires model(DrawFlowchart(source)) == TaggedBlock("", code)
    ensures GetFlowchart(source, model) == ""
  {
    FenceAsWrittenLosesCode(code);
  }

  /** A part holding code: its stripped text opens with the language tag
      "mermaid" in any case, or with a diagram keyword. */
  predicate IsCode(p: string) {
    StartsWith(Lower(Strip(p)), "mermaid") || IsDiagram(p)
  }

  /** The code of a code part: its stripped text without the language tag. */
  function CodeOf(p: string): (r: string)
    ensures Strip(r) == r
  {
    var s := Strip(p);
    if StartsWith(Lower(s), "mermaid") then
      var c := s[7..];
      StripIdempotent(c);
      Strip(c)
    else
      StripIdempotent(p);
      s
  }

  /** The scan as intended: the code of the first part that holds code. */
  function MermaidScan(parts: seq<string>, i: nat, out: string): string
    decreases |parts| - i
  {
    if i >= |parts| then out
    else if IsCode(parts[i]) then CodeOf(parts[i])
    else MermaidScan(parts, i + 1, out)
  }

  /** The Mermaid code of a reply: the code of the first fence part holding
      code, or the reply itself. */
  function MermaidCode(out: string): string {
    if Contains(out, Fence) then MermaidScan(SplitOn(out, Fence), 0, out) else out
  }

  /** Either the reply comes back whole, or what comes back is stripped code;
      an unfenced reply comes back whole. */
  lemma {:induction false} MermaidScanShape(parts: seq<string>, i: nat, out: string)
    ensures MermaidScan(parts, i, out) == out || Strip(MermaidScan(parts, i, out)) == MermaidScan(parts, i, out)
    decreases |parts| - i
  {
    if i < |parts| && !IsCode(parts[i]) {
      MermaidScanShape(parts, i + 1, out);
    }
  }

  lemma MermaidCodeShape(out: string)
    ensures !Contains(out, Fence) ==> MermaidCode(out) == out
    ensures MermaidCode(out) == out || Strip(MermaidCode(out)) == MermaidCode(out)
  {
    if Contains(out, Fence) {
      MermaidScanShape(SplitOn(out, Fence), 0, out);
    }
  }

  /** The body of a tagged fence holds code, and that code is what was tagged. */
  lemma TaggedBodyCode(code: string)
    requires code != "" && !IsSpace(code[0]) && !IsSpace(code[|code| - 1])
    ensures IsCode("mermaid\n" + code + "\n")
    ensures CodeOf("mermaid\n" + code + "\n") == code
  {
    TaggedBodyStrip(code);
    TaggedHeadLower(code);
    TaggedHeadTail(code);
  }

  lemma TaggedBodyStrip(code: string)
    requires code != "" && !IsSpace(code[0]) && !IsSpace(code[|code| - 1])
    ensures Strip("mermaid\n" + code + "\n") == "mermaid\n" + code
  {
    var t := "mermaid\n" + code;
    StripTrailingNewline(t);
    assert "mermaid\n" + code + "\n" == t + "\n";
  }

  lemma TaggedHeadLower(code: string)
    ensures StartsWith(Lower("mermaid\n" + code), "mermaid")
  {
    assert Lower("mermaid\n" + code)[..7] == "mermaid";
  }

  lemma TaggedHeadTail(code: string)
    requires code != "" && !IsSpace(code[0]) && !IsSpace(code[|code| - 1])
    ensures ("mermaid\n" + code)[7..] == "\n" + code
    ensures Strip("\n" + code) == code
  {
    var t := "\n" + code;
    assert t[1..] == code;
    assert LStrip(code) == code;
    assert LStrip(t) == LStrip(code);
    StripUnpadded(code);
  }

  /** The intended scan gives back exactly the code of a tagged fence, after
      prose that holds no code. */
  lemma MermaidCodeOfTaggedBlock(prose: string, code: string)
    requires '`' !in prose && '`' !in code && !IsCode(prose)
    requires code != "" && !IsSpace(code[0]) && !IsSpace(code[|code| - 1])
    ensures MermaidCode(TaggedBlock(prose, code)) == code
  {
    var out := TaggedBlock(prose, code);
    TaggedBlockParts(prose, code);
    TaggedBodyCode(code);
    MermaidScanSecond(SplitOn(out, Fence), out);
  }

  /** Past a first part without code, a second part with code is picked. */
  lemma MermaidScanSecond(parts: seq<string>, out: string)
    requires |parts| >= 2 && !IsCode(parts[0]) && IsCode(parts[1])
    ensures MermaidScan(parts, 0, out) == CodeOf(parts[1])
  {
  }

  // ------------------------------------------------------------ enrichment

  /** One element of `functions_data`: its "id" ("" when missing) and its
      "location" (every key missing when the key is missing or the object is
      empty). */
  datatype FunctionRecord = FunctionRecord(id: string, location: Location)

  /** `{"description": ..., "flowchart": ...}` */
  datatype Enrichment = Enrichment(description: string, flowchart: string)

  /** What the enrichment reads besides the records: the file system, the base
      path, the model and the two switches. */
  datatype Setup = Setup(os: Os, read: Reader, basePath: string, model: Model,
                         descriptions: bool, flowcharts: bool)

  /** The records the loop does not skip: an id with a ":" and a non-empty
      location. */
  predicate Eligible(f: FunctionRecord) {
    ':' in f.id && !IsEmpty(f.location)
  }

  /** The entry of one enriched source: the model's description and flowchart,
      each "" when switched off. */
  function EntryFor(env: Setup, source: string): Enrichment {
    Enrichment(if env.descriptions then GetDescription(source, env.model) else "",
               if env.flowcharts then GetFlowchart(source, env.model) else "")
  }

  /** The source of a location under a setup. */
  function SourceMaker(env: Setup): Location -> Option<string> {
    loc => ExtractSource(env.os, env.read, env.basePath, loc)
  }

  /** The entry of a source under a setup. */
  function EntryMaker(env: Setup): string -> Enrichment {
    s => EntryFor(env, s)
  }

  lemma MakersApply(env: Setup, loc: Location, s: string)
    ensures SourceMaker(env)(loc) == ExtractSource(env.os, env.read, env.basePath, loc)
    ensures EntryMaker(env)(s) == EntryFor(env, s)
  {
  }

  /** The loop's result over `fs`, None where reading a source raises: every
      record the loop does not skip sets the entry of its id when `on`, and
      nothing is recorded otherwise. */
  function Enriched(fs: seq<FunctionRecord>, source: Location -> Option<string>,
                    entry: string -> Enrichment, on: bool): Option<map<string, Enrichment>>
    decreases |fs|
  {
    if fs == [] then Some(map[])
    else
      match Enriched(fs[..|fs| - 1], source, entry, on)
      case None => None
      case Some(m) =>
        var f := fs[|fs| - 1];
        if !Eligible(f) then Some(m)
        else
          match source(f.location)
          case None => None
          case Some(text) => Some(if on then m[f.id := entry(text)] else m)
  }

  /** Once the loop has raised, it has raised for the whole list. */
  lemma {:induction false} EnrichedFailureSticks(fs: seq<FunctionRecord>, source: Location -> Option<string>,
                                                 entry: string -> Enrichment, on: bool, n: nat)
    requires n <= |fs| && Enriched(fs[..n], source, entry, on).None?
    ensures Enriched(fs, source, entry, on).None?
    decreases |fs| - n
  {
    if n < |fs| {
      assert fs[..n + 1][..n] == fs[..n];
      EnrichedFailureSticks(fs, source, entry, on, n + 1);
    } else {
      assert fs[..n] == fs;
    }
  }

  /** The body of the loop for a record it does not skip: the description
      replaces the entry, and the flowchart is set in it, creating it if need
      be. With descriptions off, the entry's description was "" already. */
  method RecordEntry(env: Setup, result: map<string, Enrichment>, id: string, source: string)
    returns (next: map<string, Enrichment>)
    requires !env.descriptions && id in result ==> result[id].description == ""
    ensures next == if env.descriptions || env.flowcharts then result[id := EntryFor(env, source)] else result
  {
    next := result;
    if env.descriptions {
      next := next[id := Enrichment(GetDescription(source, env.model), "")];
    }
    if env.flowcharts {
      var fc := GetFlowchart(source, env.model);
      if id !in next {
        next := next[id := Enrichment("", "")];
      }
      next := next[id := next[id].(flowchart := fc)];
    }
  }

  /** One pass of the enrichment loop over record `i`: skip it, raise, or
      record its entry. */
  method EnrichStep(env: Setup, fs: seq<FunctionRecord>, i: nat, result: map<string, Enrichment>)
    returns (r: Option<map<string, Enrichment>>)
    requires i < |fs|
    requires Enriched(fs[..i], SourceMaker(env), EntryMaker(env), env.descriptions || env.flowcharts) == Some(result)
    ensures r == Enriched(fs[..i + 1], SourceMaker(env), EntryMaker(env), env.descriptions || env.flowcharts)
  {
    assert fs[..i + 1][..i] == fs[..i];
    var f := fs[i];
    assert fs[..i + 1][i] == f;
    if ':' !in f.id || IsEmpty(f.location) {
      return Some(result);
    }
    var text := ExtractSource(env.os, env.read, env.basePath, f.location);
    MakersApply(env, f.location, text.GetOr(""));
    if text.None? {
      return None;
    }
    if f.id in result && !env.descriptions {
      EnrichSwitchedOff(env, fs[..i], f.id);
    }
    var next := RecordEntry(env, result, f.id, text.value);
    return Some(next);
  }

  /** `enrich_functions_with_llm(functions_data, base_path, config, ...)` */
  method EnrichFunctionsWithLlm(env: Setup, fs: seq<FunctionRecord>) returns (r: Option<map<string, Enrichment>>)
    ensures r == Enriched(fs, SourceMaker(env), EntryMaker(env), env.descriptions || env.flowcharts)
  {
    var result := map[];
    for i := 0 to |fs|
      invariant Enriched(fs[..i], SourceMaker(env), EntryMaker(env), env.descriptions || env.flowcharts) == Some(result)
    {
      var next := EnrichStep(env, fs, i, result);
      if next.None? {
        EnrichedFailureSticks(fs, SourceMaker(env), EntryMaker(env), env.descriptions || env.flowcharts, i + 1);
        return None;
      }
      result := next.value;
    }
    assert fs[..|fs|] == fs;
    return Some(result);
  }

  /** The loop raises exactly when a record it does not skip has a location
      whose source raises. */
  lemma {:induction false} EnrichedFails(fs: seq<FunctionRecord>, source: Location -> Option<string>,
                                         entry: string -> Enrichment, on: bool)
    ensures Enriched(fs, source, entry, on).None? <==>
      exists j :: 0 <= j < |fs| && Eligible(fs[j]) && source(fs[j].location).None?
    decreases |fs|
  {
    if fs != [] {
      var n := |fs| - 1;
      EnrichedFails(fs[..n], source, entry, on);
      assert forall j :: 0 <= j < n ==> fs[..n][j] == fs[j];
    }
  }

  /** For the enrichment itself: it raises exactly when a record it does not
      skip has a location without "file". */
  lemma EnrichFails(env: Setup, fs: seq<FunctionRecord>)
    ensures Enriched(fs, SourceMaker(env), EntryMaker(env), env.descriptions || env.flowcharts).None? <==>
      exists j :: 0 <= j < |fs| && Eligible(fs[j]) && fs[j].location.file.None?
  {
    EnrichedFails(fs, SourceMaker(env), EntryMaker(env), env.descriptions || env.flowcharts);
    forall j | 0 <= j < |fs|
      ensures SourceMaker(env)(fs[j].location).None? <==> fs[j].location.file.None?
    {
      MakersApply(env, fs[j].location, "");
    }
  }

  /** The ids with an entry are those of the records the loop does not skip,
      and there are none when `on` is false. */
  lemma {:induction false} EnrichedKeys(fs: seq<FunctionRecord>, source: Location -> Option<string>,
                                        entry: string -> Enrichment, on: bool, k: string)
    requires Enriched(fs, source, entry, on).Some?
    ensures k in Enriched(fs, source, entry, on).value <==>
      on && exists j :: 0 <= j < |fs| && Eligible(fs[j]) && fs[j].id == k
    decreases |fs|
  {
    if fs != [] {
      var n := |fs| - 1;
      EnrichedKeys(fs[..n], source, entry, on, k);
      assert forall j :: 0 <= j < n ==> fs[..n][j] == fs[j];
    }
  }

  /** Every entry is the entry of some source. */
  lemma {:induction false} EnrichedValues(fs: seq<FunctionRecord>, source: Location -> Option<string>,
                                          entry: string -> Enrichment, on: bool, k: string)
    requires Enriched(fs, source, entry, on).Some? && k in Enriched(fs, source, entry, on).value
    ensures exists s :: Enriched(fs, source, entry, on).value[k] == entry(s)
    decreases |fs|
  {
    var n := |fs| - 1;
    var prev := Enriched(fs[..n], source, entry, on);
    if prev.None? {
      assert false;
    }
    var f := fs[n];
    if Eligible(f) && on && f.id == k {
      var text := source(f.location).value;
      assert Enriched(fs, source, entry, on).value[k] == entry(text);
    } else {
      EnrichedValues(fs[..n], source, entry, on, k);
    }
  }

  /** A switched-off part stays "" in every entry. */
  lemma EnrichSwitchedOff(env: Setup, fs: seq<FunctionRecord>, k: string)
    requires Enriched(fs, SourceMaker(env), EntryMaker(env), env.descriptions || env.flowcharts).Some?
    requires k in Enriched(fs, SourceMaker(env), EntryMaker(env), env.descriptions || env.flowcharts).value
    ensures var e := Enriched(fs, SourceMaker(env), EntryMaker(env), env.descriptions || env.flowcharts).value[k];
      (!env.descriptions ==> e.description == "") && (!env.flowcharts ==> e.flowchart == "")
  {
    EnrichedValues(fs, SourceMaker(env), EntryMaker(env), env.descriptions || env.flowcharts, k);
    var s :| Enriched(fs, SourceMaker(env), EntryMaker(env), env.descriptions || env.flowcharts).value[k]
          == EntryMaker(env)(s);
    MakersApply(env, Location(None, None, None), s);
  }

  /** The last record with an id that the loop does not skip decides the id's
      entry: an earlier record's description or flowchart never survives. */
  lemma {:induction false} EnrichedLastWins(fs: seq<FunctionRecord>, source: Location -> Option<string>,
                                            entry: string -> Enrichment, j: nat)
    requires Enriched(fs, source, entry, true).Some?
    requires j < |fs| && Eligible(fs[j])
    requires forall i :: j < i < |fs| ==> !(Eligible(fs[i]) && fs[i].id == fs[j].id)
    ensures source(fs[j].location).Some?
    ensures fs[j].id in Enriched(fs, source, entry, true).value
    ensures Enriched(fs, source, entry, true).value[fs[j].id] == entry(source(fs[j].location).value)
    decreases |fs|
  {
    var n := |fs| - 1;
    var prev := Enriched(fs[..n], source, entry, true);
    if prev.None? {
      assert false;
    }
    if j < n {
      assert fs[..n][j] == fs[j];
      assert forall i :: j < i < n ==> fs[..n][i] == fs[i];
      EnrichedLastWins(fs[..n], source, entry, j);
    }
  }
}
