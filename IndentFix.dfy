/** scripts/yaml_indent_fix.py: a document-start guard and four line-oriented
    indentation passes over a playbook held as its list of lines (each line keeps its
    own terminator, as `splitlines(keepends=True)` gives them).

    Every pass walks the lines once. When it meets an opening line it remembers that
    line's indent as the region's base and rewrites the lines after it until a
    boundary test fires; the boundary line is then looked at again as if no region
    were open. `Region` is that one bit of state: the functions below follow the
    passes line by line, and each method is the pass with its own nested loops,
    proved to compute its function. */
module IndentFix {
  import opened Text

  const MappingListKeys: set<string> :=
    {"tags", "that", "when", "loop", "with_items", "with_list", "with_dict", "required_controls", "msg"}
  const SectionTaskKeys: set<string> := {"pre_tasks", "tasks", "post_tasks"}
  /** Keys that close a module's argument list when they appear at the module's indent. */
  const TaskLevelKeys: set<string> :=
    {"register", "changed_when", "failed_when", "when", "notify", "loop", "with_items",
     "with_dict", "with_list", "loop_control", "delegate_to", "retries", "delay", "until",
     "tags", "vars", "environment"}
  const ModuleWords: set<string> := {"ansible", "command", "shell"}
  const DocStart: string := "---\n"

  datatype Region = Outside | Inside(base: nat)

  function Rank(r: Region): nat {
    if r.Inside? then 1 else 0
  }

  /** `is_comment_or_blank`: the line is whitespace only, or its first visible character is `#`. */
  function IsCommentOrBlank(s: string): (b: bool)
    ensures b <==> (Indent(s) == |s| || s[Indent(s)] == '#')
  {
    StripEmpty(s);
    var t := Strip(s);
    t == [] || StartsWith(t, "#")
  }

  /** `ensure_doc_start`. */
  function EnsureDocStart(lines: seq<string>): (r: seq<string>)
    ensures |r| >= 1 && StartsWith(Strip(r[0]), "---")
    ensures r == lines <==> (lines != [] && StartsWith(Strip(lines[0]), "---"))
    ensures r != lines ==> r == [DocStart] + lines
  {
    StripDocStart();
    if lines == [] then [DocStart]
    else if !StartsWith(Strip(lines[0]), "---") then [DocStart] + lines
    else lines
  }

  lemma StripDocStart()
    ensures Strip(DocStart) == "---"
  {
    assert DocStart == Spaces(0) + "---" + "\n";
    assert LStrip("---") == "---";
    assert RStrip("---") == "---";
    assert Reindent("---", 0) == DocStart;
    StripReindent("---", 0);
  }


  /** A line `<key>:` (after stripping) whose key is one of `keys`. */
  predicate KeyLine(line: string, keys: set<string>) {
    var t := Strip(line);
    EndsWith(t, ":") && Strip(t[..|t| - 1]) in keys
  }

  /** `after` is `before` unchanged, or `before`'s non-blank text re-emitted exactly two columns deeper. */
  predicate KeptOrTwoDeeper(before: string, after: string) {
    after == before || (Strip(before) != [] && after == Reindent(before, Indent(before) + 2))
  }

  // ------------------------------------------------- fix_mapping_list_indentation

  /** The tests that end a mapping-list region whose key sits at indent `b`. */
  predicate EndsMappingList(b: nat, line: string) {
    var t := Strip(line);
    (EndsWith(t, ":") && Indent(line) <= b) || t == [] || (Indent(line) <= b && !StartsWith(t, "- "))
  }

  /** A line inside a mapping-list region at base `b`: a `- ` item at exactly `b` moves to `b + 2`. */
  function MappingListItem(b: nat, line: string): string {
    if StartsWith(Strip(line), "- ") && Indent(line) == b then Reindent(line, b + 2) else line
  }

  function MappingList(lines: seq<string>, r: Region): seq<string>
    decreases |lines|, Rank(r)
  {
    if lines == [] then []
    else match r
      case Outside =>
        [lines[0]] + MappingList(lines[1..], MappingListAfter(lines[0]))
      case Inside(b) =>
        if EndsMappingList(b, lines[0]) then MappingList(lines, Outside)
        else [MappingListItem(b, lines[0])] + MappingList(lines[1..], r)
  }

  /** The region a line outside one leaves the pass in: a new one at its indent when it is
      a key line of `MappingListKeys`. */
  function MappingListAfter(line: string): Region {
    if KeyLine(line, MappingListKeys) then Inside(Indent(line)) else Outside
  }

  /** A line outside a region is emitted as it stands. */
  lemma MappingListOutsideStep(lines: seq<string>, i: nat, out: seq<string>, goal: seq<string>)
    requires i < |lines| && out + MappingList(lines[i..], Outside) == goal
    ensures (out + [lines[i]]) + MappingList(lines[i + 1..], MappingListAfter(lines[i])) == goal
  {
    assert lines[i..][0] == lines[i] && lines[i..][1..] == lines[i + 1..];
    AppendAssoc(out, [lines[i]], MappingList(lines[i + 1..], MappingListAfter(lines[i])));
  }

  /** A line that ends the region is looked at again from outside. */
  lemma MappingListEndStep(lines: seq<string>, i: nat, b: nat, out: seq<string>, goal: seq<string>)
    requires i < |lines| && out + MappingList(lines[i..], Inside(b)) == goal && EndsMappingList(b, lines[i])
    ensures out + MappingList(lines[i..], Outside) == goal
  {
  }

  /** A line inside the region is emitted as `MappingListItem` makes it. */
  lemma MappingListInsideStep(lines: seq<string>, i: nat, b: nat, out: seq<string>, goal: seq<string>)
    requires i < |lines| && out + MappingList(lines[i..], Inside(b)) == goal && !(EndsMappingList(b, lines[i]))
    ensures (out + [MappingListItem(b, lines[i])]) + MappingList(lines[i + 1..], Inside(b)) == goal
  {
    assert lines[i..][0] == lines[i] && lines[i..][1..] == lines[i + 1..];
    AppendAssoc(out, [MappingListItem(b, lines[i])], MappingList(lines[i + 1..], Inside(b)));
  }

  /** The inner loop of `fix_mapping_list_indentation`: the list items under a mapping key at `baseIndent`, up to
      the first line that ends the region, which is left for the outer loop. */
  method MappingListBody(lines: seq<string>, i0: nat, baseIndent: nat, out0: seq<string>, ghost goal: seq<string>)
    returns (i: nat, out: seq<string>)
    requires i0 <= |lines| && out0 + MappingList(lines[i0..], Inside(baseIndent)) == goal
    ensures i0 <= i <= |lines| && out + MappingList(lines[i..], Outside) == goal
  {
    i, out := i0, out0;
    // the list items directly under the key go two columns deeper
    while i < |lines|
      invariant i0 <= i <= |lines|
      invariant out + MappingList(lines[i..], Inside(baseIndent)) == goal
    {
      var nxt := lines[i];
      if EndsMappingList(baseIndent, nxt) {
        MappingListEndStep(lines, i, baseIndent, out, goal);
        break;
      }
      MappingListInsideStep(lines, i, baseIndent, out, goal);
      out := out + [MappingListItem(baseIndent, nxt)];
      i := i + 1;
    }
  }

  method FixMappingListIndentation(lines: seq<string>) returns (out: seq<string>)
    ensures out == MappingList(lines, Outside)
  {
    ghost var goal := MappingList(lines, Outside);
    var i := 0;
    out := [];
    while i < |lines|
      invariant i <= |lines|
      invariant out + MappingList(lines[i..], Outside) == goal
    {
      var line := lines[i];
      MappingListOutsideStep(lines, i, out, goal);
      out := out + [line];
      i := i + 1;
      if KeyLine(line, MappingListKeys) {
        var baseIndent := Indent(line);
        i, out := MappingListBody(lines, i, baseIndent, out, goal);
      }
    }
  }

  // ------------------------------------------------- fix_section_task_indentation

  /** Only a `:`-terminated line at or left of the section key ends a task section. */
  predicate EndsSection(b: nat, line: string) {
    EndsWith(Strip(line), ":") && Indent(line) <= b
  }

  /** A line inside a section at base `b`: a `- name:` task at or left of `b` moves to `b + 2`. */
  function SectionTaskItem(b: nat, line: string): string {
    if StartsWith(Strip(line), "- name:") && Indent(line) <= b then Reindent(line, b + 2) else line
  }

  function SectionTasks(lines: seq<string>, r: Region): seq<string>
    decreases |lines|, Rank(r)
  {
    if lines == [] then []
    else match r
      case Outside =>
        [lines[0]] + SectionTasks(lines[1..], SectionTasksAfter(lines[0]))
      case Inside(b) =>
        if EndsSection(b, lines[0]) then SectionTasks(lines, Outside)
        else [SectionTaskItem(b, lines[0])] + SectionTasks(lines[1..], r)
  }

  /** The region a line outside one leaves the pass in: a new one at its indent when it is
      a key line of `SectionTaskKeys`. */
  function SectionTasksAfter(line: string): Region {
    if KeyLine(line, SectionTaskKeys) then Inside(Indent(line)) else Outside
  }

  /** A line outside a region is emitted as it stands. */
  lemma SectionTasksOutsideStep(lines: seq<string>, i: nat, out: seq<string>, goal: seq<string>)
    requires i < |lines| && out + SectionTasks(lines[i..], Outside) == goal
    ensures (out + [lines[i]]) + SectionTasks(lines[i + 1..], SectionTasksAfter(lines[i])) == goal
  {
    assert lines[i..][0] == lines[i] && lines[i..][1..] == lines[i + 1..];
    AppendAssoc(out, [lines[i]], SectionTasks(lines[i + 1..], SectionTasksAfter(lines[i])));
  }

  /** A line that ends the region is looked at again from outside. */
  lemma SectionTasksEndStep(lines: seq<string>, i: nat, b: nat, out: seq<string>, goal: seq<string>)
    requires i < |lines| && out + SectionTasks(lines[i..], Inside(b)) == goal && EndsSection(b, lines[i])
    ensures out + SectionTasks(lines[i..], Outside) == goal
  {
  }

  /** A line inside the region is emitted as `SectionTaskItem` makes it. */
  lemma SectionTasksInsideStep(lines: seq<string>, i: nat, b: nat, out: seq<string>, goal: seq<string>)
    requires i < |lines| && out + SectionTasks(lines[i..], Inside(b)) == goal && !(EndsSection(b, lines[i]))
    ensures (out + [SectionTaskItem(b, lines[i])]) + SectionTasks(lines[i + 1..], Inside(b)) == goal
  {
    assert lines[i..][0] == lines[i] && lines[i..][1..] == lines[i + 1..];
    AppendAssoc(out, [SectionTaskItem(b, lines[i])], SectionTasks(lines[i + 1..], Inside(b)));
  }

  /** The inner loop of `fix_section_task_indentation`: the tasks under a section key at `baseIndent`, up to
      the first line that ends the region, which is left for the outer loop. */
  method SectionTasksBody(lines: seq<string>, i0: nat, baseIndent: nat, out0: seq<string>, ghost goal: seq<string>)
    returns (i: nat, out: seq<string>)
    requires i0 <= |lines| && out0 + SectionTasks(lines[i0..], Inside(baseIndent)) == goal
    ensures i0 <= i <= |lines| && out + SectionTasks(lines[i..], Outside) == goal
  {
    i, out := i0, out0;
    while i < |lines|
      invariant i0 <= i <= |lines|
      invariant out + SectionTasks(lines[i..], Inside(baseIndent)) == goal
    {
      var nxt := lines[i];
      // stop at the next section or a less-indented mapping key
      if EndsSection(baseIndent, nxt) {
        SectionTasksEndStep(lines, i, baseIndent, out, goal);
        break;
      }
      SectionTasksInsideStep(lines, i, baseIndent, out, goal);
      out := out + [SectionTaskItem(baseIndent, nxt)];
      i := i + 1;
    }
  }

  method FixSectionTaskIndentation(lines: seq<string>) returns (out: seq<string>)
    ensures out == SectionTasks(lines, Outside)
  {
    ghost var goal := SectionTasks(lines, Outside);
    var i := 0;
    out := [];
    while i < |lines|
      invariant i <= |lines|
      invariant out + SectionTasks(lines[i..], Outside) == goal
    {
      var line := lines[i];
      SectionTasksOutsideStep(lines, i, out, goal);
      out := out + [line];
      i := i + 1;
      if KeyLine(line, SectionTaskKeys) {
        var baseIndent := Indent(line);
        i, out := SectionTasksBody(lines, i, baseIndent, out, goal);
      }
    }
  }

  // ------------------------------------------------- fix_block_children_indentation

  /** A line inside a `block:` region at base `b` (the region ends only at an indent below `b`). */
  function BlockChild(b: nat, line: string): string {
    var t := Strip(line);
    var n := Indent(line);
    if StartsWith(t, "- name:") && n == b then Reindent(line, b + 2)
    else if n == b && t != [] && !EndsWith(t, ":") then Reindent(line, b + 2)
    else if n == b + 2 && t != [] && !EndsWith(t, ":") then Reindent(line, b + 4)
    else line
  }

  function BlockChildren(lines: seq<string>, r: Region): seq<string>
    decreases |lines|, Rank(r)
  {
    if lines == [] then []
    else match r
      case Outside =>
        [lines[0]] + BlockChildren(lines[1..], BlockChildrenAfter(lines[0]))
      case Inside(b) =>
        if Indent(lines[0]) < b then BlockChildren(lines, Outside)
        else [BlockChild(b, lines[0])] + BlockChildren(lines[1..], r)
  }

  /** The region a line outside one leaves the pass in: a new one at its indent when it is
      a `block:` line. */
  function BlockChildrenAfter(line: string): Region {
    if Strip(line) == "block:" then Inside(Indent(line)) else Outside
  }

  /** A line outside a region is emitted as it stands. */
  lemma BlockChildrenOutsideStep(lines: seq<string>, i: nat, out: seq<string>, goal: seq<string>)
    requires i < |lines| && out + BlockChildren(lines[i..], Outside) == goal
    ensures (out + [lines[i]]) + BlockChildren(lines[i + 1..], BlockChildrenAfter(lines[i])) == goal
  {
    assert lines[i..][0] == lines[i] && lines[i..][1..] == lines[i + 1..];
    AppendAssoc(out, [lines[i]], BlockChildren(lines[i + 1..], BlockChildrenAfter(lines[i])));
  }

  /** A line that ends the region is looked at again from outside. */
  lemma BlockChildrenEndStep(lines: seq<string>, i: nat, b: nat, out: seq<string>, goal: seq<string>)
    requires i < |lines| && out + BlockChildren(lines[i..], Inside(b)) == goal && Indent(lines[i]) < b
    ensures out + BlockChildren(lines[i..], Outside) == goal
  {
  }

  /** A line inside the region is emitted as `BlockChild` makes it. */
  lemma BlockChildrenInsideStep(lines: seq<string>, i: nat, b: nat, out: seq<string>, goal: seq<string>)
    requires i < |lines| && out + BlockChildren(lines[i..], Inside(b)) == goal && !(Indent(lines[i]) < b)
    ensures (out + [BlockChild(b, lines[i])]) + BlockChildren(lines[i + 1..], Inside(b)) == goal
  {
    assert lines[i..][0] == lines[i] && lines[i..][1..] == lines[i + 1..];
    AppendAssoc(out, [BlockChild(b, lines[i])], BlockChildren(lines[i + 1..], Inside(b)));
  }

  /** The inner loop of `fix_block_children_indentation`: the lines under a `block:` at `blockIndent`, up to
      the first line that ends the region, which is left for the outer loop. */
  method BlockChildrenBody(lines: seq<string>, i0: nat, blockIndent: nat, out0: seq<string>, ghost goal: seq<string>)
    returns (i: nat, out: seq<string>)
    requires i0 <= |lines| && out0 + BlockChildren(lines[i0..], Inside(blockIndent)) == goal
    ensures i0 <= i <= |lines| && out + BlockChildren(lines[i..], Outside) == goal
  {
    i, out := i0, out0;
    while i < |lines|
      invariant i0 <= i <= |lines|
      invariant out + BlockChildren(lines[i..], Inside(blockIndent)) == goal
    {
      var nxt := lines[i];
      // stop only on a dedent below the block key
      if Indent(nxt) < blockIndent {
        BlockChildrenEndStep(lines, i, blockIndent, out, goal);
        break;
      }
      BlockChildrenInsideStep(lines, i, blockIndent, out, goal);
      out := out + [BlockChild(blockIndent, nxt)];
      i := i + 1;
    }
  }

  method FixBlockChildrenIndentation(lines: seq<string>) returns (out: seq<string>)
    ensures out == BlockChildren(lines, Outside)
  {
    ghost var goal := BlockChildren(lines, Outside);
    var i := 0;
    out := [];
    while i < |lines|
      invariant i <= |lines|
      invariant out + BlockChildren(lines[i..], Outside) == goal
    {
      var line := lines[i];
      BlockChildrenOutsideStep(lines, i, out, goal);
      out := out + [line];
      i := i + 1;
      if Strip(line) == "block:" {
        var blockIndent := Indent(line);
        i, out := BlockChildrenBody(lines, i, blockIndent, out, goal);
      }
    }
  }

  // ------------------------------------------------- fix_module_arg_indentation

  /** A non-dash line ending in `:` (or `:|`, `: |`, `:>`, `: >`, `:>-`) whose key, the
      stripped text without its last character, is dotted or one of `ModuleWords`. */
  predicate OpensModuleArgs(line: string) {
    var t := Strip(line);
    (EndsWith(t, ":") || EndsWith(t, ":|") || EndsWith(t, ": |") || EndsWith(t, ":>")
     || EndsWith(t, ": >") || EndsWith(t, ":>-"))
    && !StartsWith(t, "-")
    && var key := Strip(t[..|t| - 1]);
       Contains(key, ".") || key in ModuleWords
  }

  /** A non-blank line that closes the argument list of a module at indent `m`: a dedent,
      or a task-level key line (`<key>:` where the text before the first `:` is in
      `TaskLevelKeys`) at `m`. */
  predicate EndsModuleArgs(m: nat, line: string) {
    var t := Strip(line);
    t != [] && (Indent(line) < m || (Indent(line) == m && EndsWith(t, ":") && BeforeSep(t, ':') in TaskLevelKeys))
  }

  /** A line inside a module's arguments: a non-blank line at exactly `m` moves to `m + 2`. */
  function ModuleArg(m: nat, line: string): string {
    if Strip(line) != [] && Indent(line) == m then Reindent(line, m + 2) else line
  }

  function ModuleArgs(lines: seq<string>, r: Region): seq<string>
    decreases |lines|, Rank(r)
  {
    if lines == [] then []
    else match r
      case Outside =>
        [lines[0]] + ModuleArgs(lines[1..], ModuleArgsAfter(lines[0]))
      case Inside(m) =>
        if EndsModuleArgs(m, lines[0]) then ModuleArgs(lines, Outside)
        else [ModuleArg(m, lines[0])] + ModuleArgs(lines[1..], r)
  }

  /** The region a line outside one leaves the pass in: a new one at its indent when it is
      a line that opens a module's arguments. */
  function ModuleArgsAfter(line: string): Region {
    if OpensModuleArgs(line) then Inside(Indent(line)) else Outside
  }

  /** A line outside a region is emitted as it stands. */
  lemma ModuleArgsOutsideStep(lines: seq<string>, i: nat, out: seq<string>, goal: seq<string>)
    requires i < |lines| && out + ModuleArgs(lines[i..], Outside) == goal
    ensures (out + [lines[i]]) + ModuleArgs(lines[i + 1..], ModuleArgsAfter(lines[i])) == goal
  {
    assert lines[i..][0] == lines[i] && lines[i..][1..] == lines[i + 1..];
    AppendAssoc(out, [lines[i]], ModuleArgs(lines[i + 1..], ModuleArgsAfter(lines[i])));
  }

  /** A line that ends the region is looked at again from outside. */
  lemma ModuleArgsEndStep(lines: seq<string>, i: nat, b: nat, out: seq<string>, goal: seq<string>)
    requires i < |lines| && out + ModuleArgs(lines[i..], Inside(b)) == goal && EndsModuleArgs(b, lines[i])
    ensures out + ModuleArgs(lines[i..], Outside) == goal
  {
  }

  /** A line inside the region is emitted as `ModuleArg` makes it. */
  lemma ModuleArgsInsideStep(lines: seq<string>, i: nat, b: nat, out: seq<string>, goal: seq<string>)
    requires i < |lines| && out + ModuleArgs(lines[i..], Inside(b)) == goal && !(EndsModuleArgs(b, lines[i]))
    ensures (out + [ModuleArg(b, lines[i])]) + ModuleArgs(lines[i + 1..], Inside(b)) == goal
  {
    assert lines[i..][0] == lines[i] && lines[i..][1..] == lines[i + 1..];
    AppendAssoc(out, [ModuleArg(b, lines[i])], ModuleArgs(lines[i + 1..], Inside(b)));
  }

  /** The inner loop of `fix_module_arg_indentation`: the argument lines under a module at `moduleIndent`, up to
      the first line that ends the region, which is left for the outer loop. */
  method ModuleArgsBody(lines: seq<string>, i0: nat, moduleIndent: nat, out0: seq<string>, ghost goal: seq<string>)
    returns (i: nat, out: seq<string>)
    requires i0 <= |lines| && out0 + ModuleArgs(lines[i0..], Inside(moduleIndent)) == goal
    ensures i0 <= i <= |lines| && out + ModuleArgs(lines[i..], Outside) == goal
  {
    i, out := i0, out0;
    while i < |lines|
      invariant i0 <= i <= |lines|
      invariant out + ModuleArgs(lines[i..], Inside(moduleIndent)) == goal
    {
      var nxt := lines[i];
      if Strip(nxt) == [] {
        ModuleArgsInsideStep(lines, i, moduleIndent, out, goal);
        assert ModuleArg(moduleIndent, nxt) == nxt;
        out := out + [nxt];
        i := i + 1;
        continue;
      }
      // stop on a dedent below the module, or on a task-level key at the module's indent
      if EndsModuleArgs(moduleIndent, nxt) {
        ModuleArgsEndStep(lines, i, moduleIndent, out, goal);
        break;
      }
      ModuleArgsInsideStep(lines, i, moduleIndent, out, goal);
      out := out + [ModuleArg(moduleIndent, nxt)];
      i := i + 1;
    }
  }

  method FixModuleArgIndentation(lines: seq<string>) returns (out: seq<string>)
    ensures out == ModuleArgs(lines, Outside)
  {
    ghost var goal := ModuleArgs(lines, Outside);
    var i := 0;
    out := [];
    while i < |lines|
      invariant i <= |lines|
      invariant out + ModuleArgs(lines[i..], Outside) == goal
    {
      var line := lines[i];
      ModuleArgsOutsideStep(lines, i, out, goal);
      out := out + [line];
      i := i + 1;
      if OpensModuleArgs(line) {
        var moduleIndent := Indent(line);
        i, out := ModuleArgsBody(lines, i, moduleIndent, out, goal);
      }
    }
  }

  // ------------------------------------------------- process_file, without the file

  /** The passes of `process_file`, in its order. */
  function Pipeline(original: seq<string>): seq<string> {
    var started := EnsureDocStart(original);
    ModuleArgs(BlockChildren(SectionTasks(MappingList(started, Outside), Outside), Outside), Outside)
  }

  /** `process_file` between reading and writing: the new line list and whether it is written back. */
  method ProcessLines(original: seq<string>) returns (content: seq<string>, write: bool)
    ensures content == Pipeline(original)
    ensures write <==> content != original
  {
    content := EnsureDocStart(original);
    content := FixMappingListIndentation(content);
    content := FixSectionTaskIndentation(content);
    content := FixBlockChildrenIndentation(content);
    content := FixModuleArgIndentation(content);
    write := content != original;
  }
}

/** What the passes of scripts/yaml_indent_fix.py promise: one output line per input
    line, the stripped text of every line kept, only the intended kind of line moved and
    only deeper, region by region; three of the four passes are idempotent. */
module IndentFixProperties {
  import opened Text
  import opened IndentFix

  // ------------------------------------------------- line by line

  /** A relation that holds between `lines[0]` and `first`, and line by line between
      `lines[1..]` and `rest`, holds line by line between `lines` and `[first] + rest`. */
  lemma PairwiseCons(p: (string, string) -> bool, lines: seq<string>, first: string, rest: seq<string>)
    requires lines != [] && |rest| == |lines| - 1 && p(lines[0], first)
    requires forall k :: 0 <= k < |rest| ==> p(lines[1..][k], rest[k])
    ensures forall k :: 0 <= k < |lines| ==> p(lines[k], ([first] + rest)[k])
  {
    forall k | 0 <= k < |lines|
      ensures p(lines[k], ([first] + rest)[k])
    {
      if k > 0 {
        assert lines[k] == lines[1..][k - 1];
      }
    }
  }

  /** How the mapping-list pass may change a line: not at all, or a `- ` item moved two columns deeper. */
  predicate MappingListChange(before: string, after: string) {
    KeptOrTwoDeeper(before, after) && (after != before ==> StartsWith(Strip(before), "- "))
  }

  /** Mapping-list pass: one output line per input line; a changed line is a `- ` item
      whose stripped text is re-emitted exactly two columns deeper. */
  lemma {:induction false} MappingListLines(lines: seq<string>, r: Region)
    ensures |MappingList(lines, r)| == |lines|
    ensures forall k :: 0 <= k < |lines| ==> MappingListChange(lines[k], MappingList(lines, r)[k])
    decreases |lines|, Rank(r)
  {
    if lines == [] {
    } else if r.Inside? && EndsMappingList(r.base, lines[0]) {
      MappingListLines(lines, Outside);
    } else {
      var next := if r.Outside? then MappingListAfter(lines[0]) else r;
      var first := if r.Outside? then lines[0] else MappingListItem(r.base, lines[0]);
      assert MappingListChange(lines[0], first);
      MappingListLines(lines[1..], next);
      assert MappingList(lines, r) == [first] + MappingList(lines[1..], next);
      PairwiseCons(MappingListChange, lines, first, MappingList(lines[1..], next));
    }
  }

  /** How the section pass may change a line: not at all, or a `- name:` task re-emitted
      deeper with its stripped text. */
  predicate SectionTaskChange(before: string, after: string) {
    after == before
    || (StartsWith(Strip(before), "- name:") && after == Reindent(before, Indent(after)) && Indent(after) > Indent(before))
  }

  /** Section pass: one output line per input line; a changed line is a `- name:` task
      whose stripped text is re-emitted deeper than it was. */
  lemma {:induction false} SectionTasksLines(lines: seq<string>, r: Region)
    ensures |SectionTasks(lines, r)| == |lines|
    ensures forall k :: 0 <= k < |lines| ==> SectionTaskChange(lines[k], SectionTasks(lines, r)[k])
    decreases |lines|, Rank(r)
  {
    if lines == [] {
    } else if r.Inside? && EndsSection(r.base, lines[0]) {
      SectionTasksLines(lines, Outside);
    } else {
      var next := if r.Outside? then SectionTasksAfter(lines[0]) else r;
      var first := if r.Outside? then lines[0] else SectionTaskItem(r.base, lines[0]);
      if r.Inside? && first != lines[0] {
        StripSpec(lines[0]);
        StripEmpty(lines[0]);
        IndentReindent(lines[0], r.base + 2);
      }
      SectionTasksLines(lines[1..], next);
      assert SectionTasks(lines, r) == [first] + SectionTasks(lines[1..], next);
      PairwiseCons(SectionTaskChange, lines, first, SectionTasks(lines[1..], next));
    }
  }

  /** Block pass: one output line per input line; a changed line is a non-blank line
      re-emitted exactly two columns deeper. */
  lemma {:induction false} BlockChildrenLines(lines: seq<string>, r: Region)
    ensures |BlockChildren(lines, r)| == |lines|
    ensures forall k :: 0 <= k < |lines| ==> KeptOrTwoDeeper(lines[k], BlockChildren(lines, r)[k])
    decreases |lines|, Rank(r)
  {
    if lines == [] {
    } else if r.Inside? && Indent(lines[0]) < r.base {
      BlockChildrenLines(lines, Outside);
    } else {
      var next := if r.Outside? then BlockChildrenAfter(lines[0]) else r;
      var first := if r.Outside? then lines[0] else BlockChild(r.base, lines[0]);
      if r.Inside? && first != lines[0] {
        StripEmpty(lines[0]);
      }
      BlockChildrenLines(lines[1..], next);
      assert BlockChildren(lines, r) == [first] + BlockChildren(lines[1..], next);
      PairwiseCons(KeptOrTwoDeeper, lines, first, BlockChildren(lines[1..], next));
    }
  }

  /** Module-argument pass: one output line per input line; a changed line is a
      non-blank line re-emitted exactly two columns deeper. */
  lemma {:induction false} ModuleArgsLines(lines: seq<string>, r: Region)
    ensures |ModuleArgs(lines, r)| == |lines|
    ensures forall k :: 0 <= k < |lines| ==> KeptOrTwoDeeper(lines[k], ModuleArgs(lines, r)[k])
    decreases |lines|, Rank(r)
  {
    if lines == [] {
    } else if r.Outside? {
      var next := ModuleArgsAfter(lines[0]);
      ModuleArgsLines(lines[1..], next);
      assert ModuleArgs(lines, r) == [lines[0]] + ModuleArgs(lines[1..], next);
      PairwiseCons(KeptOrTwoDeeper, lines, lines[0], ModuleArgs(lines[1..], next));
    } else if EndsModuleArgs(r.base, lines[0]) {
      ModuleArgsLines(lines, Outside);
    } else {
      var first := ModuleArg(r.base, lines[0]);
      assert KeptOrTwoDeeper(lines[0], first);
      ModuleArgsLines(lines[1..], r);
      assert ModuleArgs(lines, r) == [first] + ModuleArgs(lines[1..], r);
      PairwiseCons(KeptOrTwoDeeper, lines, first, ModuleArgs(lines[1..], r));
    }
  }

  /** `process_file` keeps one line per line of the guarded document, keeps every line's
      stripped text, and never touches the first line, so the result always opens with `---`. */
  lemma PipelinePreservesContent(original: seq<string>)
    ensures |Pipeline(original)| == |EnsureDocStart(original)|
    ensures forall k :: 0 <= k < |Pipeline(original)| ==> Strip(Pipeline(original)[k]) == Strip(EnsureDocStart(original)[k])
    ensures Pipeline(original)[0] == EnsureDocStart(original)[0]
    ensures StartsWith(Strip(Pipeline(original)[0]), "---")
  {
    var l0 := EnsureDocStart(original);
    var l1 := MappingList(l0, Outside);
    var l2 := SectionTasks(l1, Outside);
    var l3 := BlockChildren(l2, Outside);
    var l4 := ModuleArgs(l3, Outside);
    MappingListLines(l0, Outside);
    SectionTasksLines(l1, Outside);
    BlockChildrenLines(l2, Outside);
    ModuleArgsLines(l3, Outside);
    forall k | 0 <= k < |l4|
      ensures Strip(l4[k]) == Strip(l0[k])
    {
      KeptStrip(l0[k], l1[k]);
      if l2[k] != l1[k] { StripReindent(l1[k], Indent(l2[k])); }
      KeptStrip(l2[k], l3[k]);
      KeptStrip(l3[k], l4[k]);
    }
  }

  lemma KeptStrip(before: string, after: string)
    requires KeptOrTwoDeeper(before, after)
    ensures Strip(after) == Strip(before)
  {
    if after != before {
      StripReindent(before, Indent(before) + 2);
    }
  }

  // ------------------------------------------------- idempotence

  lemma MappingListItemStable(b: nat, line: string)
    requires !EndsMappingList(b, line)
    ensures !EndsMappingList(b, MappingListItem(b, line))
    ensures MappingListItem(b, MappingListItem(b, line)) == MappingListItem(b, line)
  {
    if StartsWith(Strip(line), "- ") && Indent(line) == b {
      StripReindent(line, b + 2);
      IndentReindent(line, b + 2);
    }
  }

  /** Running the mapping-list pass on its own output changes nothing. */
  lemma {:induction false} MappingListIdempotent(lines: seq<string>, r: Region)
    ensures MappingList(MappingList(lines, r), r) == MappingList(lines, r)
    decreases |lines|, Rank(r)
  {
    if lines == [] {
    } else if r.Outside? {
      var next := MappingListAfter(lines[0]);
      MappingListIdempotent(lines[1..], next);
      var out := MappingList(lines, r);
      assert out[0] == lines[0] && out[1..] == MappingList(lines[1..], next);
    } else if EndsMappingList(r.base, lines[0]) {
      MappingListIdempotent(lines, Outside);
      var out := MappingList(lines, r);
      assert out[0] == lines[0];
    } else {
      MappingListIdempotent(lines[1..], r);
      MappingListItemStable(r.base, lines[0]);
      var out := MappingList(lines, r);
      assert out[0] == MappingListItem(r.base, lines[0]) && out[1..] == MappingList(lines[1..], r);
    }
  }

  lemma SectionTaskItemStable(b: nat, line: string)
    requires !EndsSection(b, line)
    ensures !EndsSection(b, SectionTaskItem(b, line))
    ensures SectionTaskItem(b, SectionTaskItem(b, line)) == SectionTaskItem(b, line)
  {
    if StartsWith(Strip(line), "- name:") && Indent(line) <= b {
      StripReindent(line, b + 2);
      IndentReindent(line, b + 2);
    }
  }

  /** Running the section pass on its own output changes nothing. */
  lemma {:induction false} SectionTasksIdempotent(lines: seq<string>, r: Region)
    ensures SectionTasks(SectionTasks(lines, r), r) == SectionTasks(lines, r)
    decreases |lines|, Rank(r)
  {
    if lines == [] {
    } else if r.Outside? {
      var next := SectionTasksAfter(lines[0]);
      SectionTasksIdempotent(lines[1..], next);
      var out := SectionTasks(lines, r);
      assert out[0] == lines[0] && out[1..] == SectionTasks(lines[1..], next);
    } else if EndsSection(r.base, lines[0]) {
      SectionTasksIdempotent(lines, Outside);
      var out := SectionTasks(lines, r);
      assert out[0] == lines[0];
    } else {
      SectionTasksIdempotent(lines[1..], r);
      SectionTaskItemStable(r.base, lines[0]);
      var out := SectionTasks(lines, r);
      assert out[0] == SectionTaskItem(r.base, lines[0]) && out[1..] == SectionTasks(lines[1..], r);
    }
  }

  lemma ModuleArgStable(m: nat, line: string)
    requires !EndsModuleArgs(m, line)
    ensures !EndsModuleArgs(m, ModuleArg(m, line))
    ensures ModuleArg(m, ModuleArg(m, line)) == ModuleArg(m, line)
  {
    if Strip(line) != [] && Indent(line) == m {
      StripReindent(line, m + 2);
      IndentReindent(line, m + 2);
    }
  }

  /** Running the module-argument pass on its own output changes nothing. */
  lemma {:induction false} ModuleArgsIdempotent(lines: seq<string>, r: Region)
    ensures ModuleArgs(ModuleArgs(lines, r), r) == ModuleArgs(lines, r)
    decreases |lines|, Rank(r)
  {
    if lines == [] {
    } else if r.Outside? {
      var next := ModuleArgsAfter(lines[0]);
      ModuleArgsIdempotent(lines[1..], next);
      var out := ModuleArgs(lines, r);
      assert out[0] == lines[0] && out[1..] == ModuleArgs(lines[1..], next);
    } else if EndsModuleArgs(r.base, lines[0]) {
      ModuleArgsIdempotent(lines, Outside);
      var out := ModuleArgs(lines, r);
      assert out[0] == lines[0];
    } else {
      ModuleArgsIdempotent(lines[1..], r);
      ModuleArgStable(r.base, lines[0]);
      var out := ModuleArgs(lines, r);
      assert out[0] == ModuleArg(r.base, lines[0]) && out[1..] == ModuleArgs(lines[1..], r);
    }
  }

  lemma BlockKeyLine()
    ensures Strip("block:\n") == "block:" && Indent("block:\n") == 0
  {
    assert LStrip("block:\n") == "block:\n" && RStrip("block:\n") == RStrip("block:");
    assert RStrip("block:") == "block:";
  }

  lemma PlainChildLines()
    ensures Strip("x\n") == "x" && Indent("x\n") == 0
    ensures Strip("  x\n") == "x" && Indent("  x\n") == 2
    ensures BlockChild(0, "x\n") == "  x\n" && BlockChild(0, "  x\n") == "    x\n"
  {
    assert LStrip("x\n") == "x\n" && RStrip("x\n") == RStrip("x") == "x";
    assert Reindent("x\n", 2) == "  x\n";
    IndentReindent("x\n", 2);
    StripReindent("x\n", 2);
    assert Reindent("  x\n", 4) == "    x\n";
  }

  /** A block with a plain child `x` at the block key's indent, after one run and after two. */
  lemma BlockChildrenPlainChild(child: string, moved: string)
    requires child in {"x\n", "  x\n"} && moved == BlockChild(0, child)
    ensures BlockChildren(["block:\n", child], Outside) == ["block:\n", moved]
  {
    BlockKeyLine();
    PlainChildLines();
    assert Indent(child) >= 0;
    assert BlockChildrenAfter("block:\n") == Inside(0);
    assert ["block:\n", child][0] == "block:\n" && ["block:\n", child][1..] == [child];
    assert BlockChildren(["block:\n", child], Outside) == ["block:\n"] + BlockChildren([child], Inside(0));
    assert [child][0] == child && [child][1..] == [];
    assert BlockChildren([child], Inside(0)) == [moved] + BlockChildren([], Inside(0));
  }

  /** The block pass is not idempotent: a plain child at the block key's own indent moves
      to two columns deeper on the first run, and on the second run the rule for children
      two columns deep moves it two columns further. */
  lemma BlockChildrenNotIdempotent()
    ensures var once := BlockChildren(["block:\n", "x\n"], Outside);
      once == ["block:\n", "  x\n"] && BlockChildren(once, Outside) == ["block:\n", "    x\n"]
  {
    PlainChildLines();
    BlockChildrenPlainChild("x\n", "  x\n");
    BlockChildrenPlainChild("  x\n", "    x\n");
  }

  /** A pass started outside any region copies a first line that opens none, and goes on
      outside. */
  lemma MappingListCopiesLine(lines: seq<string>)
    requires lines != [] && !KeyLine(lines[0], MappingListKeys)
    ensures MappingList(lines, Outside) == [lines[0]] + MappingList(lines[1..], Outside)
  {
  }

  lemma SectionTasksCopiesLine(lines: seq<string>)
    requires lines != [] && !KeyLine(lines[0], SectionTaskKeys)
    ensures SectionTasks(lines, Outside) == [lines[0]] + SectionTasks(lines[1..], Outside)
  {
  }

  lemma ModuleArgsCopiesLine(lines: seq<string>)
    requires lines != [] && !OpensModuleArgs(lines[0])
    ensures ModuleArgs(lines, Outside) == [lines[0]] + ModuleArgs(lines[1..], Outside)
  {
  }

  /** `---` is no key line at all. */
  lemma DocStartOpensNothing()
    ensures !KeyLine(DocStart, MappingListKeys) && !KeyLine(DocStart, SectionTaskKeys) && !OpensModuleArgs(DocStart)
  {
    StripDocStart();
    assert ':' !in "---";
    TextOpensNothing("---");
    assert !EndsWith(Strip(DocStart), ":");
  }

  /** Nor is a plain child `x` at any of the indents the block pass gives it. */
  lemma PlainChildOpensNothing(line: string)
    requires line in {"x\n", "  x\n", "    x\n"}
    ensures !KeyLine(line, MappingListKeys) && !KeyLine(line, SectionTaskKeys) && !OpensModuleArgs(line)
  {
    PlainChildLines();
    assert Strip("    x\n") == "x" by {
      assert Reindent("x\n", 4) == "    x\n";
      StripReindent("x\n", 4);
    }
    TextOpensNothing("x");
  }

  /** A stripped text without a `:` has none of the suffixes that open module arguments. */
  lemma TextOpensNothing(t: string)
    requires ':' !in t
    ensures !(EndsWith(t, ":") || EndsWith(t, ":|") || EndsWith(t, ": |") || EndsWith(t, ":>")
              || EndsWith(t, ": >") || EndsWith(t, ":>-"))
  {
    EndsWithHeadIn(t, ":");
    EndsWithHeadIn(t, ":|");
    EndsWithHeadIn(t, ": |");
    EndsWithHeadIn(t, ":>");
    EndsWithHeadIn(t, ": >");
    EndsWithHeadIn(t, ":>-");
  }

  /** `block:` is a key line, but of none of the keys that open a region of those passes. */
  lemma BlockKeyOpensNothing()
    ensures !KeyLine("block:\n", MappingListKeys) && !KeyLine("block:\n", SectionTaskKeys)
    ensures !OpensModuleArgs("block:\n")
  {
    BlockKeyLine();
    assert "block:"[..5] == "block";
    assert LStrip("block") == "block" && RStrip("block") == "block";
    assert !Contains("block", ".") by {
      assert "block"[1..] == "lock" && "lock"[1..] == "ock" && "ock"[1..] == "ck" && "ck"[1..] == "k";
      assert "k"[1..] == [] && !Contains([], ".");
      StartsWithHead("k", ".");
      StartsWithHead("ck", ".");
      StartsWithHead("ock", ".");
      StartsWithHead("lock", ".");
      StartsWithHead("block", ".");
    }
  }

  /** The block pass on the example file: the plain child moves two columns deeper. */
  lemma BlockChildrenAfterDocStart(child: string, moved: string)
    requires child in {"x\n", "  x\n"} && moved == BlockChild(0, child)
    ensures BlockChildren(["---\n", "block:\n", child], Outside) == ["---\n", "block:\n", moved]
  {
    StripDocStart();
    BlockChildrenPlainChild(child, moved);
    assert ["---\n", "block:\n", child][1..] == ["block:\n", child];
    assert BlockChildrenAfter("---\n") == Outside;
  }

  /** The example file already starts with `---`, and the mapping-list and section passes
      copy it. */
  lemma ExampleFirstPasses(child: string)
    requires child in {"x\n", "  x\n"}
    ensures SectionTasks(MappingList(EnsureDocStart(["---\n", "block:\n", child]), Outside), Outside)
      == ["---\n", "block:\n", child]
  {
    StripDocStart();
    assert EnsureDocStart(["---\n", "block:\n", child]) == ["---\n", "block:\n", child];
    ExampleMappingList(child);
    ExampleSectionTasks(child);
  }

  /** The mapping-list pass copies the example file. */
  lemma ExampleMappingList(child: string)
    requires child in {"x\n", "  x\n"}
    ensures MappingList(["---\n", "block:\n", child], Outside) == ["---\n", "block:\n", child]
  {
    var lines := ["---\n", "block:\n", child];
    assert lines[1..] == ["block:\n", child] && lines[1..][1..] == [child] && [child][1..] == [];
    assert !KeyLine(lines[0], MappingListKeys) by { DocStartOpensNothing(); }
    assert !KeyLine(lines[1], MappingListKeys) by { BlockKeyOpensNothing(); }
    assert !KeyLine(child, MappingListKeys) by { PlainChildOpensNothing(child); }
    MappingListCopiesLine(lines);
    MappingListCopiesLine(lines[1..]);
    MappingListCopiesLine([child]);
  }

  /** The section pass copies the example file. */
  lemma ExampleSectionTasks(child: string)
    requires child in {"x\n", "  x\n"}
    ensures SectionTasks(["---\n", "block:\n", child], Outside) == ["---\n", "block:\n", child]
  {
    var lines := ["---\n", "block:\n", child];
    assert lines[1..] == ["block:\n", child] && lines[1..][1..] == [child] && [child][1..] == [];
    assert !KeyLine(lines[0], SectionTaskKeys) by { DocStartOpensNothing(); }
    assert !KeyLine(lines[1], SectionTaskKeys) by { BlockKeyOpensNothing(); }
    assert !KeyLine(child, SectionTaskKeys) by { PlainChildOpensNothing(child); }
    SectionTasksCopiesLine(lines);
    SectionTasksCopiesLine(lines[1..]);
    SectionTasksCopiesLine([child]);
  }

  /** The module-argument pass copies the example file after the block pass. */
  lemma ExampleLastPass(moved: string)
    requires moved in {"  x\n", "    x\n"}
    ensures ModuleArgs(["---\n", "block:\n", moved], Outside) == ["---\n", "block:\n", moved]
  {
    var lines := ["---\n", "block:\n", moved];
    assert lines[1..] == ["block:\n", moved] && lines[1..][1..] == [moved] && [moved][1..] == [];
    assert !OpensModuleArgs(lines[0]) by { DocStartOpensNothing(); }
    assert !OpensModuleArgs(lines[1]) by { BlockKeyOpensNothing(); }
    assert !OpensModuleArgs(moved) by { PlainChildOpensNothing(moved); }
    ModuleArgsCopiesLine(lines);
    ModuleArgsCopiesLine(lines[1..]);
    ModuleArgsCopiesLine([moved]);
  }

  /** One run of the whole pipeline on the example file. */
  lemma PipelineExampleRun(child: string, moved: string)
    requires child in {"x\n", "  x\n"} && moved == BlockChild(0, child)
    ensures Pipeline(["---\n", "block:\n", child]) == ["---\n", "block:\n", moved]
  {
    PlainChildLines();
    ExampleFirstPasses(child);
    BlockChildrenAfterDocStart(child, moved);
    ExampleLastPass(moved);
  }

  /** `process_file` as a whole is not idempotent: a second run over its own output moves
      the plain child of a `block:` two more columns. */
  lemma PipelineNotIdempotent()
    ensures Pipeline(["---\n", "block:\n", "x\n"]) == ["---\n", "block:\n", "  x\n"]
    ensures Pipeline(Pipeline(["---\n", "block:\n", "x\n"])) == ["---\n", "block:\n", "    x\n"]
    ensures Pipeline(Pipeline(["---\n", "block:\n", "x\n"])) != Pipeline(["---\n", "block:\n", "x\n"])
  {
    PlainChildLines();
    PipelineExampleRun("x\n", "  x\n");
    PipelineExampleRun("  x\n", "    x\n");
    assert "  x\n"[2] != "    x\n"[2];
  }

  // ------------------------------------------------- regions

  /** `MappingListItem` applied to each line of `seg`. */
  function EachMappingListItem(b: nat, seg: seq<string>): seq<string> {
    if seg == [] then [] else [MappingListItem(b, seg[0])] + EachMappingListItem(b, seg[1..])
  }

  /** Inside a region at base `b` whose first line is `lines[lo]` and whose boundary is `lines[k]`. */
  lemma {:induction false} MappingListInside(lines: seq<string>, b: nat, lo: nat, k: nat)
    requires lo <= k <= |lines|
    requires forall j :: lo <= j < k ==> !EndsMappingList(b, lines[j])
    requires k == |lines| || EndsMappingList(b, lines[k])
    ensures MappingList(lines[lo..], Inside(b)) == EachMappingListItem(b, lines[lo..k]) + MappingList(lines[k..], Outside)
    decreases k - lo
  {
    if lo == k {
      assert lines[lo..k] == [];
    } else {
      MappingListInside(lines, b, lo + 1, k);
      assert lines[lo..][0] == lines[lo] && lines[lo..][1..] == lines[lo + 1..];
      assert lines[lo..k][0] == lines[lo] && lines[lo..k][1..] == lines[lo + 1..k];
      AppendAssoc([MappingListItem(b, lines[lo])], EachMappingListItem(b, lines[lo + 1..k]), MappingList(lines[k..], Outside));
    }
  }

  lemma MappingListOpens(lines: seq<string>)
    requires lines != [] && KeyLine(lines[0], MappingListKeys)
    ensures MappingList(lines, Outside) == [lines[0]] + MappingList(lines[1..], Inside(Indent(lines[0])))
  {
  }

  /** A region opened by `lines[0]` and closed by `lines[k]` (or by the end of the file):
      the opener is kept, every line between is rewritten on its own by `MappingListItem`,
      and the pass starts afresh at `lines[k]`. */
  lemma MappingListRegion(lines: seq<string>, k: nat)
    requires 0 < k <= |lines| && KeyLine(lines[0], MappingListKeys)
    requires forall j :: 0 < j < k ==> !EndsMappingList(Indent(lines[0]), lines[j])
    requires k == |lines| || EndsMappingList(Indent(lines[0]), lines[k])
    ensures MappingList(lines, Outside) == [lines[0]] + EachMappingListItem(Indent(lines[0]), lines[1..k]) + MappingList(lines[k..], Outside)
  {
    var b := Indent(lines[0]);
    MappingListInside(lines, b, 1, k);
    MappingListOpens(lines);
    AppendAssoc([lines[0]], EachMappingListItem(b, lines[1..k]), MappingList(lines[k..], Outside));
  }

  /** `SectionTaskItem` applied to each line of `seg`. */
  function EachSectionTaskItem(b: nat, seg: seq<string>): seq<string> {
    if seg == [] then [] else [SectionTaskItem(b, seg[0])] + EachSectionTaskItem(b, seg[1..])
  }

  /** Inside a region at base `b` whose first line is `lines[lo]` and whose boundary is `lines[k]`. */
  lemma {:induction false} SectionTasksInside(lines: seq<string>, b: nat, lo: nat, k: nat)
    requires lo <= k <= |lines|
    requires forall j :: lo <= j < k ==> !EndsSection(b, lines[j])
    requires k == |lines| || EndsSection(b, lines[k])
    ensures SectionTasks(lines[lo..], Inside(b)) == EachSectionTaskItem(b, lines[lo..k]) + SectionTasks(lines[k..], Outside)
    decreases k - lo
  {
    if lo == k {
      assert lines[lo..k] == [];
    } else {
      SectionTasksInside(lines, b, lo + 1, k);
      assert lines[lo..][0] == lines[lo] && lines[lo..][1..] == lines[lo + 1..];
      assert lines[lo..k][0] == lines[lo] && lines[lo..k][1..] == lines[lo + 1..k];
      AppendAssoc([SectionTaskItem(b, lines[lo])], EachSectionTaskItem(b, lines[lo + 1..k]), SectionTasks(lines[k..], Outside));
    }
  }

  lemma SectionTasksOpens(lines: seq<string>)
    requires lines != [] && KeyLine(lines[0], SectionTaskKeys)
    ensures SectionTasks(lines, Outside) == [lines[0]] + SectionTasks(lines[1..], Inside(Indent(lines[0])))
  {
  }

  /** A region opened by `lines[0]` and closed by `lines[k]` (or by the end of the file):
      the opener is kept, every line between is rewritten on its own by `SectionTaskItem`,
      and the pass starts afresh at `lines[k]`. */
  lemma SectionTasksRegion(lines: seq<string>, k: nat)
    requires 0 < k <= |lines| && KeyLine(lines[0], SectionTaskKeys)
    requires forall j :: 0 < j < k ==> !EndsSection(Indent(lines[0]), lines[j])
    requires k == |lines| || EndsSection(Indent(lines[0]), lines[k])
    ensures SectionTasks(lines, Outside) == [lines[0]] + EachSectionTaskItem(Indent(lines[0]), lines[1..k]) + SectionTasks(lines[k..], Outside)
  {
    var b := Indent(lines[0]);
    SectionTasksInside(lines, b, 1, k);
    SectionTasksOpens(lines);
    AppendAssoc([lines[0]], EachSectionTaskItem(b, lines[1..k]), SectionTasks(lines[k..], Outside));
  }

  /** `BlockChild` applied to each line of `seg`. */
  function EachBlockChild(b: nat, seg: seq<string>): seq<string> {
    if seg == [] then [] else [BlockChild(b, seg[0])] + EachBlockChild(b, seg[1..])
  }

  /** Inside a region at base `b` whose first line is `lines[lo]` and whose boundary is `lines[k]`. */
  lemma {:induction false} BlockChildrenInside(lines: seq<string>, b: nat, lo: nat, k: nat)
    requires lo <= k <= |lines|
    requires forall j :: lo <= j < k ==> Indent(lines[j]) >= b
    requires k == |lines| || Indent(lines[k]) < b
    ensures BlockChildren(lines[lo..], Inside(b)) == EachBlockChild(b, lines[lo..k]) + BlockChildren(lines[k..], Outside)
    decreases k - lo
  {
    if lo == k {
      assert lines[lo..k] == [];
    } else {
      BlockChildrenInside(lines, b, lo + 1, k);
      assert lines[lo..][0] == lines[lo] && lines[lo..][1..] == lines[lo + 1..];
      assert lines[lo..k][0] == lines[lo] && lines[lo..k][1..] == lines[lo + 1..k];
      AppendAssoc([BlockChild(b, lines[lo])], EachBlockChild(b, lines[lo + 1..k]), BlockChildren(lines[k..], Outside));
    }
  }

  lemma BlockChildrenOpens(lines: seq<string>)
    requires lines != [] && Strip(lines[0]) == "block:"
    ensures BlockChildren(lines, Outside) == [lines[0]] + BlockChildren(lines[1..], Inside(Indent(lines[0])))
  {
  }

  /** A region opened by `lines[0]` and closed by `lines[k]` (or by the end of the file):
      the opener is kept, every line between is rewritten on its own by `BlockChild`,
      and the pass starts afresh at `lines[k]`. */
  lemma BlockChildrenRegion(lines: seq<string>, k: nat)
    requires 0 < k <= |lines| && Strip(lines[0]) == "block:"
    requires forall j :: 0 < j < k ==> Indent(lines[j]) >= Indent(lines[0])
    requires k == |lines| || Indent(lines[k]) < Indent(lines[0])
    ensures BlockChildren(lines, Outside) == [lines[0]] + EachBlockChild(Indent(lines[0]), lines[1..k]) + BlockChildren(lines[k..], Outside)
  {
    var b := Indent(lines[0]);
    BlockChildrenInside(lines, b, 1, k);
    BlockChildrenOpens(lines);
    AppendAssoc([lines[0]], EachBlockChild(b, lines[1..k]), BlockChildren(lines[k..], Outside));
  }

  /** `ModuleArg` applied to each line of `seg`. */
  function EachModuleArg(b: nat, seg: seq<string>): seq<string> {
    if seg == [] then [] else [ModuleArg(b, seg[0])] + EachModuleArg(b, seg[1..])
  }

  /** Inside a region at base `b` whose first line is `lines[lo]` and whose boundary is `lines[k]`. */
  lemma {:induction false} ModuleArgsInside(lines: seq<string>, b: nat, lo: nat, k: nat)
    requires lo <= k <= |lines|
    requires forall j :: lo <= j < k ==> !EndsModuleArgs(b, lines[j])
    requires k == |lines| || EndsModuleArgs(b, lines[k])
    ensures ModuleArgs(lines[lo..], Inside(b)) == EachModuleArg(b, lines[lo..k]) + ModuleArgs(lines[k..], Outside)
    decreases k - lo
  {
    if lo == k {
      assert lines[lo..k] == [];
    } else {
      ModuleArgsInside(lines, b, lo + 1, k);
      assert lines[lo..][0] == lines[lo] && lines[lo..][1..] == lines[lo + 1..];
      assert lines[lo..k][0] == lines[lo] && lines[lo..k][1..] == lines[lo + 1..k];
      AppendAssoc([ModuleArg(b, lines[lo])], EachModuleArg(b, lines[lo + 1..k]), ModuleArgs(lines[k..], Outside));
    }
  }

  lemma ModuleArgsOpens(lines: seq<string>)
    requires lines != [] && OpensModuleArgs(lines[0])
    ensures ModuleArgs(lines, Outside) == [lines[0]] + ModuleArgs(lines[1..], Inside(Indent(lines[0])))
  {
  }

  /** A region opened by `lines[0]` and closed by `lines[k]` (or by the end of the file):
      the opener is kept, every line between is rewritten on its own by `ModuleArg`,
      and the pass starts afresh at `lines[k]`. */
  lemma ModuleArgsRegion(lines: seq<string>, k: nat)
    requires 0 < k <= |lines| && OpensModuleArgs(lines[0])
    requires forall j :: 0 < j < k ==> !EndsModuleArgs(Indent(lines[0]), lines[j])
    requires k == |lines| || EndsModuleArgs(Indent(lines[0]), lines[k])
    ensures ModuleArgs(lines, Outside) == [lines[0]] + EachModuleArg(Indent(lines[0]), lines[1..k]) + ModuleArgs(lines[k..], Outside)
  {
    var b := Indent(lines[0]);
    ModuleArgsInside(lines, b, 1, k);
    ModuleArgsOpens(lines);
    AppendAssoc([lines[0]], EachModuleArg(b, lines[1..k]), ModuleArgs(lines[k..], Outside));
  }
}
