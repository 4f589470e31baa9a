/** fix_all_yaml.py, `fix_yaml_file` between reading and writing the file: one
    index-driven scan over the lines of a playbook with sub-loops for `tags:`, `block:`,
    `tasks:`-style sections (and the tasks inside them) and `when:`. The scan drops
    `register:` lines it finds in tag lists, re-indents list items and task bodies, and
    turns the non-existent `ansible.builtin.syslog` module into a `logger` shell call,
    rewriting the NEXT line of its own input list before it gets there.

    `Run` follows the scan line by line and records, for every line it visits, the line
    as it stood in the (mutated) list and what became of it; `FixYamlFile` is the scan
    with its own loops, proved to emit exactly the texts of that record. */
module FixAllYaml {
  import opened Text
  import opened IndentFix

  const Syslog: string := "ansible.builtin.syslog"
  const Shell: string := "ansible.builtin.shell"
  /** The stripped lines that open a task section. */
  const SectionOpeners: set<string> := {"tasks:", "pre_tasks:", "post_tasks:"}
  /** The stripped lines that end a task's body. */
  const TaskEnders: set<string> := {"tasks:", "pre_tasks:", "post_tasks:", "handlers:"}
  /** The stripped lines that end a task section. */
  const SectionEnders: set<string> := {"handlers:", "vars:", "tasks:", "pre_tasks:", "post_tasks:"}

  /** Where the scan is: at top level, or inside one of its sub-loops (with that
      sub-loop's base indent). A sub-loop that stops hands its current line back to
      the loop around it. */
  datatype Mode = Top | InTags(t: nat) | InBlock(b: nat) | InSection(s: nat) | InTask(s: nat) | InWhen(w: nat)

  function ModeRank(m: Mode): nat {
    match m
    case Top => 0
    case InTask(_) => 2
    case _ => 1
  }

  /** What happened to one visited line: `src` is the line as it stood in the list when
      the scan reached it; it was either emitted as `text` or dropped. */
  datatype Visit = Emit(src: string, text: string) | Drop(src: string)

  /** The emitted texts of a record, in order: the output file. */
  function Texts(trace: seq<Visit>): seq<string> {
    if trace == [] then []
    else (if trace[0].Emit? then [trace[0].text] else []) + Texts(trace[1..])
  }

  /** The text after the first occurrence of `pat` (empty when there is none). */
  function AfterFirst(s: string, pat: string): string
    decreases |s|
  {
    if StartsWith(s, pat) then s[|pat|..]
    else if s == [] then []
    else AfterFirst(s[1..], pat)
  }

  /** Group 1 of `re.search(r'msg:\s*(.*)', line)`: after the first `msg:`, past the
      longest run of whitespace, up to the first newline. */
  function MsgText(line: string): string {
    BeforeSep(LStrip(AfterFirst(line, "msg:")), '\n')
  }

  /** The rewrite of the line after a syslog line: `msg:` becomes `cmd:` everywhere, then
      every occurrence of the message becomes `logger <message>`. */
  function MsgToCmd(line: string): string {
    var msg := MsgText(line);
    Replace(Replace(line, "msg:", "cmd:"), msg, "logger " + msg)
  }

  /** The visited line with the syslog module renamed to the shell module: a renamed line
      names the shell module and no longer names the syslog module anywhere. */
  function SyslogLine(line: string): (r: string)
    ensures !Contains(line, Syslog) ==> r == line
    ensures Contains(line, Syslog) ==> !Contains(r, Syslog) && Contains(r, Shell)
  {
    if Contains(line, Syslog) then
      SyslogClearedByShell();
      ReplaceRemoves(line, Syslog, Shell);
      ReplaceInserts(line, Syslog, Shell);
      Replace(line, Syslog, Shell)
    else line
  }

  /** No occurrence of the syslog module can survive, or straddle, its rename. */
  lemma SyslogClearedByShell()
    ensures ClearedBy(Syslog, Shell)
  {
    assert Syslog[17] != Shell[17];
    assert Syslog[..|Shell|] != Shell;
  }

  /** The list after the lookahead of a visit at `i` on top level: when line `i` names the
      syslog module and line `i + 1` holds `msg:`, line `i + 1` is rewritten in place. */
  function Lookahead(lines: seq<string>, i: nat): (r: seq<string>)
    requires i < |lines|
    ensures |r| == |lines|
    ensures r == lines || (i + 1 < |lines| && r == lines[i + 1 := MsgToCmd(lines[i + 1])])
  {
    if Contains(lines[i], Syslog) && i + 1 < |lines| && Contains(lines[i + 1], "msg:") then
      lines[i + 1 := MsgToCmd(lines[i + 1])]
    else lines
  }

  /** A non-comment `register:` line on top level right after `tags:`, or right after a
      `- ` item whose own predecessor mentions `tags:`. */
  predicate MisplacedRegister(lines: seq<string>, i: nat)
    requires i < |lines|
  {
    var stripped := Strip(lines[i]);
    Contains(stripped, "register:") && !StartsWith(stripped, "#") && i > 0
    && var prev := Strip(lines[i - 1]);
       (prev == "tags:" || (StartsWith(prev, "- ") && i > 1 && Contains(lines[i - 2], "tags:")))
  }

  /** The sub-loop a top-level line opens, with the indent of the line as emitted. */
  function Opened(src: string): Mode {
    var stripped := Strip(src);
    var indent := Indent(SyslogLine(src));
    if stripped == "tags:" then InTags(indent)
    else if stripped == "block:" then InBlock(indent)
    else if stripped in SectionOpeners then InSection(indent)
    else if stripped == "when:" then InWhen(indent)
    else Top
  }

  /** The scan from line `i` of `lines`, resumed in the loop that mode `m` names. */
  function Run(lines: seq<string>, i: nat, m: Mode): seq<Visit>
    requires i <= |lines|
    decreases |lines| - i, ModeRank(m), 1
  {
    match m
    case Top => TopLoop(lines, i)
    case InTags(t) => TagsLoop(lines, i, t)
    case InBlock(b) => BlockLoop(lines, i, b)
    case InSection(s) => SectionLoop(lines, i, s)
    case InTask(s) => TaskLoop(lines, i, s)
    case InWhen(w) => WhenLoop(lines, i, w)
  }

  /** The outer loop (fix_all_yaml.py lines 26-169): the lookahead, then the line is
      dropped as a misplaced `register:`, or emitted and perhaps opens a sub-loop. */
  function TopLoop(lines: seq<string>, i: nat): seq<Visit>
    requires i <= |lines|
    decreases |lines| - i, 0, 0
  {
    if i == |lines| then []
    else
      var src := lines[i];
      var next := Lookahead(lines, i);
      if MisplacedRegister(next, i) then [Drop(src)] + TopLoop(next, i + 1)
      else [Emit(src, SyslogLine(src))] + Run(next, i + 1, Opened(src))
  }

  /** The `tags:` sub-loop (lines 57-73) of a `tags:` line at `t`. */
  function TagsLoop(lines: seq<string>, i: nat, t: nat): seq<Visit>
    requires i <= |lines|
    decreases |lines| - i, 1, 0
  {
    if i == |lines| then []
    else
      var stripped := Strip(lines[i]);
      if Contains(stripped, "register:") || StartsWith(stripped, "- ") then [TagVisit(t, lines[i])] + TagsLoop(lines, i + 1, t)
      else Run(lines, i, Top)
  }

  /** The `block:` sub-loop (lines 85-99) of a `block:` line at `b`. */
  function BlockLoop(lines: seq<string>, i: nat, b: nat): seq<Visit>
    requires i <= |lines|
    decreases |lines| - i, 1, 0
  {
    if i == |lines| then []
    else if Strip(lines[i]) == [] then Run(lines, i, Top)
    else [Emit(lines[i], BlockLine(b, lines[i]))] + BlockLoop(lines, i + 1, b)
  }

  /** The section sub-loop (lines 109-148) of a `tasks:`-style line at `s`. */
  function SectionLoop(lines: seq<string>, i: nat, s: nat): seq<Visit>
    requires i <= |lines|
    decreases |lines| - i, 1, 0
  {
    if i == |lines| then []
    else
      var src := lines[i];
      var stripped := Strip(src);
      if StartsWith(stripped, "- name:") then [Emit(src, Reindent(src, s + 2))] + TaskLoop(lines, i + 1, s)
      else if stripped != [] && !StartsWith(stripped, "#") && stripped in SectionEnders then Run(lines, i, Top)
      else [Emit(src, src)] + SectionLoop(lines, i + 1, s)
  }

  /** The loop over one task's body (lines 119-137) in a section at `s`. */
  function TaskLoop(lines: seq<string>, i: nat, s: nat): seq<Visit>
    requires i <= |lines|
    decreases |lines| - i, 2, 0
  {
    if i == |lines| then []
    else
      var stripped := Strip(lines[i]);
      if StartsWith(stripped, "- name:") || stripped in TaskEnders then Run(lines, i, InSection(s))
      else [Emit(lines[i], TaskLine(s, lines[i]))] + TaskLoop(lines, i + 1, s)
  }

  /** The `when:` sub-loop (lines 156-164) of a `when:` line at `w`. */
  function WhenLoop(lines: seq<string>, i: nat, w: nat): seq<Visit>
    requires i <= |lines|
    decreases |lines| - i, 1, 0
  {
    if i == |lines| then []
    else if StartsWith(Strip(lines[i]), "- ") then [Emit(lines[i], Reindent(lines[i], w + 2))] + WhenLoop(lines, i + 1, w)
    else Run(lines, i, Top)
  }

  /** A line of a `tags:` list at `t`: a `register:` line is dropped, an item goes to `t + 2`. */
  function TagVisit(t: nat, line: string): Visit {
    if Contains(Strip(line), "register:") then Drop(line) else Emit(line, Reindent(line, t + 2))
  }

  /** A non-blank line under `block:` at `b`: a `- ` line goes to `b + 2`, any other line
      shallower than `b + 4` goes to `b + 4`, deeper lines are kept. */
  function BlockLine(b: nat, line: string): string {
    if StartsWith(Strip(line), "- ") then Reindent(line, b + 2)
    else if Indent(line) < b + 4 then Reindent(line, b + 4)
    else line
  }

  /** A line of a task's body in a section at `s`: flattened to `s + 4`, or `"\n"` when blank. */
  function TaskLine(s: nat, line: string): string {
    if Strip(line) != [] then Reindent(line, s + 4) else "\n"
  }

  /** The output of `fix_yaml_file` for the lines read from the file. */
  function FixedLines(input: seq<string>): seq<string> {
    Texts(TopLoop(EnsureDocStart(input), 0))
  }

  // ------------------------------------------------- one step at a time

  lemma TextsCons(v: Visit, rest: seq<Visit>)
    ensures Texts([v] + rest) == (if v.Emit? then [v.text] else []) + Texts(rest)
  {
    assert ([v] + rest)[0] == v && ([v] + rest)[1..] == rest;
  }

  /** Emitting `text` moves it from the pending visits to the lines written so far. */
  lemma EmitStep(out: seq<string>, src: string, text: string, rest: seq<Visit>, goal: seq<string>)
    requires out + Texts([Emit(src, text)] + rest) == goal
    ensures (out + [text]) + Texts(rest) == goal
  {
    TextsCons(Emit(src, text), rest);
    AppendAssoc(out, [text], Texts(rest));
  }

  /** A dropped line writes nothing. */
  lemma DropStep(out: seq<string>, src: string, rest: seq<Visit>, goal: seq<string>)
    requires out + Texts([Drop(src)] + rest) == goal
    ensures out + Texts(rest) == goal
  {
    TextsCons(Drop(src), rest);
  }

  /** A top-level visit of line `i`: the lookahead, then a drop or an emit. */
  lemma TopStep(lines: seq<string>, i: nat, out: seq<string>, goal: seq<string>)
    requires i < |lines| && out + Texts(TopLoop(lines, i)) == goal
    ensures var next := Lookahead(lines, i);
      if MisplacedRegister(next, i) then out + Texts(TopLoop(next, i + 1)) == goal
      else (out + [SyslogLine(lines[i])]) + Texts(Run(next, i + 1, Opened(lines[i]))) == goal
  {
    var next := Lookahead(lines, i);
    if MisplacedRegister(next, i) {
      assert TopLoop(lines, i) == [Drop(lines[i])] + TopLoop(next, i + 1);
      DropStep(out, lines[i], TopLoop(next, i + 1), goal);
    } else {
      var rest := Run(next, i + 1, Opened(lines[i]));
      assert TopLoop(lines, i) == [Emit(lines[i], SyslogLine(lines[i]))] + rest;
      EmitStep(out, lines[i], SyslogLine(lines[i]), rest, goal);
    }
  }

  lemma TagsStep(lines: seq<string>, i: nat, t: nat, out: seq<string>, goal: seq<string>)
    requires i < |lines| && out + Texts(TagsLoop(lines, i, t)) == goal
    ensures Contains(Strip(lines[i]), "register:") ==> out + Texts(TagsLoop(lines, i + 1, t)) == goal
    ensures !Contains(Strip(lines[i]), "register:") && StartsWith(Strip(lines[i]), "- ") ==>
      (out + [Reindent(lines[i], t + 2)]) + Texts(TagsLoop(lines, i + 1, t)) == goal
    ensures !Contains(Strip(lines[i]), "register:") && !StartsWith(Strip(lines[i]), "- ") ==>
      out + Texts(TopLoop(lines, i)) == goal
  {
    var stripped := Strip(lines[i]);
    if Contains(stripped, "register:") {
      TextsCons(Drop(lines[i]), TagsLoop(lines, i + 1, t));
    } else if StartsWith(stripped, "- ") {
      assert TagVisit(t, lines[i]) == Emit(lines[i], Reindent(lines[i], t + 2));
      TextsCons(Emit(lines[i], Reindent(lines[i], t + 2)), TagsLoop(lines, i + 1, t));
      AppendAssoc(out, [Reindent(lines[i], t + 2)], Texts(TagsLoop(lines, i + 1, t)));
    }
  }

  lemma BlockStep(lines: seq<string>, i: nat, b: nat, out: seq<string>, goal: seq<string>)
    requires i < |lines| && Strip(lines[i]) != [] && out + Texts(BlockLoop(lines, i, b)) == goal
    ensures (out + [BlockLine(b, lines[i])]) + Texts(BlockLoop(lines, i + 1, b)) == goal
  {
    assert BlockLoop(lines, i, b) == [Emit(lines[i], BlockLine(b, lines[i]))] + BlockLoop(lines, i + 1, b);
    EmitStep(out, lines[i], BlockLine(b, lines[i]), BlockLoop(lines, i + 1, b), goal);
  }

  lemma SectionStep(lines: seq<string>, i: nat, s: nat, out: seq<string>, goal: seq<string>)
    requires i < |lines| && out + Texts(SectionLoop(lines, i, s)) == goal
    ensures var stripped := Strip(lines[i]);
      if StartsWith(stripped, "- name:") then (out + [Reindent(lines[i], s + 2)]) + Texts(TaskLoop(lines, i + 1, s)) == goal
      else if stripped != [] && !StartsWith(stripped, "#") && stripped in SectionEnders then out + Texts(TopLoop(lines, i)) == goal
      else (out + [lines[i]]) + Texts(SectionLoop(lines, i + 1, s)) == goal
  {
    var stripped := Strip(lines[i]);
    if StartsWith(stripped, "- name:") {
      TextsCons(Emit(lines[i], Reindent(lines[i], s + 2)), TaskLoop(lines, i + 1, s));
      AppendAssoc(out, [Reindent(lines[i], s + 2)], Texts(TaskLoop(lines, i + 1, s)));
    } else if !(stripped != [] && !StartsWith(stripped, "#") && stripped in SectionEnders) {
      TextsCons(Emit(lines[i], lines[i]), SectionLoop(lines, i + 1, s));
      AppendAssoc(out, [lines[i]], Texts(SectionLoop(lines, i + 1, s)));
    }
  }

  lemma TaskStep(lines: seq<string>, i: nat, s: nat, out: seq<string>, goal: seq<string>)
    requires i < |lines| && out + Texts(TaskLoop(lines, i, s)) == goal
    ensures StartsWith(Strip(lines[i]), "- name:") || Strip(lines[i]) in TaskEnders ==>
      out + Texts(SectionLoop(lines, i, s)) == goal
    ensures !(StartsWith(Strip(lines[i]), "- name:") || Strip(lines[i]) in TaskEnders) ==>
      (out + [TaskLine(s, lines[i])]) + Texts(TaskLoop(lines, i + 1, s)) == goal
  {
    if !(StartsWith(Strip(lines[i]), "- name:") || Strip(lines[i]) in TaskEnders) {
      TextsCons(Emit(lines[i], TaskLine(s, lines[i])), TaskLoop(lines, i + 1, s));
      AppendAssoc(out, [TaskLine(s, lines[i])], Texts(TaskLoop(lines, i + 1, s)));
    }
  }

  lemma WhenStep(lines: seq<string>, i: nat, w: nat, out: seq<string>, goal: seq<string>)
    requires i < |lines| && out + Texts(WhenLoop(lines, i, w)) == goal
    ensures !StartsWith(Strip(lines[i]), "- ") ==> out + Texts(TopLoop(lines, i)) == goal
    ensures StartsWith(Strip(lines[i]), "- ") ==> (out + [Reindent(lines[i], w + 2)]) + Texts(WhenLoop(lines, i + 1, w)) == goal
  {
    if StartsWith(Strip(lines[i]), "- ") {
      TextsCons(Emit(lines[i], Reindent(lines[i], w + 2)), WhenLoop(lines, i + 1, w));
      AppendAssoc(out, [Reindent(lines[i], w + 2)], Texts(WhenLoop(lines, i + 1, w)));
    }
  }

  // ------------------------------------------------- the scan

  /** The `tags:` sub-loop (fix_all_yaml.py lines 57-73), entered after the `tags:` line. */
  method TagList(lines: seq<string>, i0: nat, indent: nat, fixed0: seq<string>, ghost goal: seq<string>)
    returns (i: nat, fixedLines: seq<string>)
    requires i0 <= |lines| && fixed0 + Texts(TagsLoop(lines, i0, indent)) == goal
    ensures i0 <= i <= |lines| && fixedLines + Texts(TopLoop(lines, i)) == goal
  {
    i, fixedLines := i0, fixed0;
    while i < |lines|
      invariant i0 <= i <= |lines|
      invariant fixedLines + Texts(TagsLoop(lines, i, indent)) == goal
    {
      var nextStripped := Strip(lines[i]);
      TagsStep(lines, i, indent, fixedLines, goal);
      if Contains(nextStripped, "register:") {
        // the value is taken out and never put back: the line is dropped
        i := i + 1;
        continue;
      } else if StartsWith(nextStripped, "- ") {
        fixedLines := fixedLines + [Spaces(indent + 2) + nextStripped + "\n"];
        i := i + 1;
      } else {
        break;
      }
    }
  }

  /** The `block:` sub-loop (fix_all_yaml.py lines 85-99), entered after the `block:` line. */
  method BlockBody(lines: seq<string>, i0: nat, blockIndent: nat, fixed0: seq<string>, ghost goal: seq<string>)
    returns (i: nat, fixedLines: seq<string>)
    requires i0 <= |lines| && fixed0 + Texts(BlockLoop(lines, i0, blockIndent)) == goal
    ensures i0 <= i <= |lines| && fixedLines + Texts(TopLoop(lines, i)) == goal
  {
    i, fixedLines := i0, fixed0;
    while i < |lines| && Strip(lines[i]) != []
      invariant i0 <= i <= |lines|
      invariant fixedLines + Texts(BlockLoop(lines, i, blockIndent)) == goal
    {
      var blockLine := lines[i];
      BlockStep(lines, i, blockIndent, fixedLines, goal);
      if StartsWith(Strip(blockLine), "- ") {
        var taskContent := Strip(blockLine);
        fixedLines := fixedLines + [Spaces(blockIndent + 2) + taskContent + "\n"];
      } else {
        var currentIndent := Indent(blockLine);
        if currentIndent < blockIndent + 4 {
          fixedLines := fixedLines + [Spaces(blockIndent + 4) + Strip(blockLine) + "\n"];
        } else {
          fixedLines := fixedLines + [blockLine];
        }
      }
      i := i + 1;
    }
    assert i < |lines| ==> BlockLoop(lines, i, blockIndent) == TopLoop(lines, i);
  }

  /** The body of one task in a section at `sectionIndent` (fix_all_yaml.py lines 119-137),
      entered after its `- name:` line; it stops at the next task or section keyword. */
  method TaskBody(lines: seq<string>, i0: nat, sectionIndent: nat, fixed0: seq<string>, ghost goal: seq<string>)
    returns (i: nat, fixedLines: seq<string>)
    requires i0 <= |lines| && fixed0 + Texts(TaskLoop(lines, i0, sectionIndent)) == goal
    ensures i0 <= i <= |lines| && fixedLines + Texts(SectionLoop(lines, i, sectionIndent)) == goal
  {
    i, fixedLines := i0, fixed0;
    while i < |lines|
      invariant i0 <= i <= |lines|
      invariant fixedLines + Texts(TaskLoop(lines, i, sectionIndent)) == goal
    {
      var contentLine := lines[i];
      var contentStripped := Strip(contentLine);
      TaskStep(lines, i, sectionIndent, fixedLines, goal);
      if StartsWith(contentStripped, "- name:") || contentStripped in TaskEnders {
        break;
      }
      if contentStripped != [] {
        fixedLines := fixedLines + [Spaces(sectionIndent + 4) + contentStripped + "\n"];
      } else {
        fixedLines := fixedLines + ["\n"];
      }
      i := i + 1;
    }
  }

  /** The `tasks:`/`pre_tasks:`/`post_tasks:` sub-loop (fix_all_yaml.py lines 109-148),
      entered after the section line. */
  method Section(lines: seq<string>, i0: nat, sectionIndent: nat, fixed0: seq<string>, ghost goal: seq<string>)
    returns (i: nat, fixedLines: seq<string>)
    requires i0 <= |lines| && fixed0 + Texts(SectionLoop(lines, i0, sectionIndent)) == goal
    ensures i0 <= i <= |lines| && fixedLines + Texts(TopLoop(lines, i)) == goal
  {
    i, fixedLines := i0, fixed0;
    while i < |lines|
      invariant i0 <= i <= |lines|
      invariant fixedLines + Texts(SectionLoop(lines, i, sectionIndent)) == goal
    {
      var taskLine := lines[i];
      var taskStripped := Strip(taskLine);
      SectionStep(lines, i, sectionIndent, fixedLines, goal);
      if StartsWith(taskStripped, "- name:") {
        fixedLines := fixedLines + [Spaces(sectionIndent + 2) + taskStripped + "\n"];
        i := i + 1;
        i, fixedLines := TaskBody(lines, i, sectionIndent, fixedLines, goal);
        continue;
      } else if taskStripped != [] && !StartsWith(taskStripped, "#") {
        if taskStripped in SectionEnders {
          break;
        }
        fixedLines := fixedLines + [taskLine];
        i := i + 1;
      } else {
        fixedLines := fixedLines + [taskLine];
        i := i + 1;
      }
    }
  }

  /** The `when:` sub-loop (fix_all_yaml.py lines 156-164), entered after the `when:` line. */
  method WhenList(lines: seq<string>, i0: nat, whenIndent: nat, fixed0: seq<string>, ghost goal: seq<string>)
    returns (i: nat, fixedLines: seq<string>)
    requires i0 <= |lines| && fixed0 + Texts(WhenLoop(lines, i0, whenIndent)) == goal
    ensures i0 <= i <= |lines| && fixedLines + Texts(TopLoop(lines, i)) == goal
  {
    i, fixedLines := i0, fixed0;
    while i < |lines|
      invariant i0 <= i <= |lines|
      invariant fixedLines + Texts(WhenLoop(lines, i, whenIndent)) == goal
    {
      var whenStripped := Strip(lines[i]);
      WhenStep(lines, i, whenIndent, fixedLines, goal);
      if StartsWith(whenStripped, "- ") {
        fixedLines := fixedLines + [Spaces(whenIndent + 2) + whenStripped + "\n"];
        i := i + 1;
      } else {
        break;
      }
    }
  }

  /** `fix_yaml_file` from `readlines()` to `writelines()`. */
  method FixYamlFile(input: seq<string>) returns (fixedLines: seq<string>)
    ensures fixedLines == FixedLines(input)
  {
    var lines := input;
    if lines == [] || !StartsWith(Strip(lines[0]), "---") {
      lines := [DocStart] + lines;
    }
    assert lines == EnsureDocStart(input);
    ghost var goal := Texts(TopLoop(lines, 0));
    fixedLines := [];
    var i := 0;
    while i < |lines|
      invariant i <= |lines|
      invariant fixedLines + Texts(TopLoop(lines, i)) == goal
    {
      ghost var before := lines;
      var line := lines[i];
      var stripped := Strip(line);
      if Contains(line, Syslog) {
        line := Replace(line, Syslog, Shell);
        if i + 1 < |lines| && Contains(lines[i + 1], "msg:") {
          var nextLine := lines[i + 1];
          var msg := MsgText(nextLine);
          lines := lines[i + 1 := Replace(Replace(nextLine, "msg:", "cmd:"), msg, "logger " + msg)];
        }
      }
      TopStep(before, i, fixedLines, goal);
      assert lines == Lookahead(before, i) && line == SyslogLine(before[i]) && stripped == Strip(before[i]);
      if MisplacedRegister(lines, i) {
        // skipped, and never emitted later
        i := i + 1;
        continue;
      }
      fixedLines := fixedLines + [line];
      i := i + 1;
      if stripped == "tags:" {
        i, fixedLines := TagList(lines, i, Indent(line), fixedLines, goal);
      } else if stripped == "block:" {
        i, fixedLines := BlockBody(lines, i, Indent(line), fixedLines, goal);
      } else if stripped in SectionOpeners {
        i, fixedLines := Section(lines, i, Indent(line), fixedLines, goal);
      } else if stripped == "when:" {
        i, fixedLines := WhenList(lines, i, Indent(line), fixedLines, goal);
      }
    }
  }
}

/** What `fix_yaml_file` promises, read off the record of its scan: every line of the
    guarded input is visited once, left to right; the only lines left out are
    `register:` lines; every emitted line is the visited line (with the syslog module
    renamed) or its stripped text re-indented; each sub-loop rewrites its region line by
    line and hands back the line that ends it. */
module FixAllYamlProperties {
  import opened Text
  import opened IndentFix
  import opened FixAllYaml

  /** `text` is `src`'s stripped text after some number of spaces, with a newline. */
  predicate Reindented(src: string, text: string) {
    |Strip(src)| < |text| && text == Reindent(src, |text| - |Strip(src)| - 1)
  }

  /** What may become of a visited line. */
  predicate VisitOk(v: Visit) {
    match v
    case Drop(src) => Contains(Strip(src), "register:")
    case Emit(src, text) => text == src || text == SyslogLine(src) || Reindented(src, text)
  }

  predicate AllOk(trace: seq<Visit>) {
    forall k :: 0 <= k < |trace| ==> VisitOk(trace[k])
  }

  /** Visit `k` of a record starting at line `i` saw line `i + k` of `lines`, or (right
      after visiting a syslog line) that line with its `msg:` rewritten. */
  predicate Sourced(lines: seq<string>, i: nat, trace: seq<Visit>)
    requires i + |trace| <= |lines|
  {
    forall k :: 0 <= k < |trace| ==> SourcedAt(lines, i, trace, k)
  }

  /** Visit `k` saw line `i + k`, or that line with its `msg:` rewritten right after a
      visit to a syslog line. */
  predicate SourcedAt(lines: seq<string>, i: nat, trace: seq<Visit>, k: nat)
    requires k < |trace| && i + |trace| <= |lines|
  {
    trace[k].src == lines[i + k]
    || (k > 0 && Contains(trace[k - 1].src, Syslog) && Contains(lines[i + k], "msg:")
        && trace[k].src == MsgToCmd(lines[i + k]))
  }

  lemma ReindentedReindent(src: string, n: nat)
    ensures Reindented(src, Reindent(src, n))
  {
    assert |Reindent(src, n)| == n + |Strip(src)| + 1;
  }

  /** Every line from `i` on is visited exactly once. */
  lemma {:induction false} RunLength(lines: seq<string>, i: nat, m: Mode)
    requires i <= |lines|
    ensures |Run(lines, i, m)| == |lines| - i
    decreases |lines| - i, ModeRank(m), 1
  {
    if i < |lines| {
      match m
      case Top => TopLength(lines, i);
      case InTags(t) => TagsLength(lines, i, t);
      case InBlock(b) => BlockLength(lines, i, b);
      case InSection(s) => SectionLength(lines, i, s);
      case InTask(s) => TaskLength(lines, i, s);
      case InWhen(w) => WhenLength(lines, i, w);
    }
  }

  // `RunLength` for each loop in turn: one step of the loop, then the rest of the scan.

  lemma {:induction false} TopLength(lines: seq<string>, i: nat)
    requires i < |lines|
    ensures |Run(lines, i, Top)| == |lines| - i
    decreases |lines| - i, 0, 0
  {
    var next := Lookahead(lines, i);
    if MisplacedRegister(next, i) {
      RunLength(next, i + 1, Top);
      assert Run(lines, i, Top) == [Drop(lines[i])] + Run(next, i + 1, Top);
    } else {
      RunLength(next, i + 1, Opened(lines[i]));
      assert Run(lines, i, Top) == [Emit(lines[i], SyslogLine(lines[i]))] + Run(next, i + 1, Opened(lines[i]));
    }
  }

  lemma {:induction false} TagsLength(lines: seq<string>, i: nat, t: nat)
    requires i < |lines|
    ensures |Run(lines, i, InTags(t))| == |lines| - i
    decreases |lines| - i, 1, 0
  {
    var stripped := Strip(lines[i]);
    if Contains(stripped, "register:") || StartsWith(stripped, "- ") {
      RunLength(lines, i + 1, InTags(t));
      assert Run(lines, i, InTags(t)) == [TagVisit(t, lines[i])] + Run(lines, i + 1, InTags(t));
    } else {
      assert Run(lines, i, InTags(t)) == Run(lines, i, Top);
      RunLength(lines, i, Top);
    }
  }

  lemma {:induction false} BlockLength(lines: seq<string>, i: nat, b: nat)
    requires i < |lines|
    ensures |Run(lines, i, InBlock(b))| == |lines| - i
    decreases |lines| - i, 1, 0
  {
    if Strip(lines[i]) == [] {
      assert Run(lines, i, InBlock(b)) == Run(lines, i, Top);
      RunLength(lines, i, Top);
    } else {
      RunLength(lines, i + 1, InBlock(b));
      assert Run(lines, i, InBlock(b)) == [Emit(lines[i], BlockLine(b, lines[i]))] + Run(lines, i + 1, InBlock(b));
    }
  }

  lemma {:induction false} SectionLength(lines: seq<string>, i: nat, s: nat)
    requires i < |lines|
    ensures |Run(lines, i, InSection(s))| == |lines| - i
    decreases |lines| - i, 1, 0
  {
    var src := lines[i];
    var stripped := Strip(src);
    if StartsWith(stripped, "- name:") {
      RunLength(lines, i + 1, InTask(s));
      assert Run(lines, i, InSection(s)) == [Emit(src, Reindent(src, s + 2))] + Run(lines, i + 1, InTask(s));
    } else if stripped != [] && !StartsWith(stripped, "#") && stripped in SectionEnders {
      assert Run(lines, i, InSection(s)) == Run(lines, i, Top);
      RunLength(lines, i, Top);
    } else {
      RunLength(lines, i + 1, InSection(s));
      assert Run(lines, i, InSection(s)) == [Emit(src, src)] + Run(lines, i + 1, InSection(s));
    }
  }

  lemma {:induction false} TaskLength(lines: seq<string>, i: nat, s: nat)
    requires i < |lines|
    ensures |Run(lines, i, InTask(s))| == |lines| - i
    decreases |lines| - i, 2, 0
  {
    var stripped := Strip(lines[i]);
    if StartsWith(stripped, "- name:") || stripped in TaskEnders {
      assert Run(lines, i, InTask(s)) == Run(lines, i, InSection(s));
      RunLength(lines, i, InSection(s));
    } else {
      RunLength(lines, i + 1, InTask(s));
      assert Run(lines, i, InTask(s)) == [Emit(lines[i], TaskLine(s, lines[i]))] + Run(lines, i + 1, InTask(s));
    }
  }

  lemma {:induction false} WhenLength(lines: seq<string>, i: nat, w: nat)
    requires i < |lines|
    ensures |Run(lines, i, InWhen(w))| == |lines| - i
    decreases |lines| - i, 1, 0
  {
    if StartsWith(Strip(lines[i]), "- ") {
      RunLength(lines, i + 1, InWhen(w));
      assert Run(lines, i, InWhen(w)) == [Emit(lines[i], Reindent(lines[i], w + 2))] + Run(lines, i + 1, InWhen(w));
    } else {
      assert Run(lines, i, InWhen(w)) == Run(lines, i, Top);
      RunLength(lines, i, Top);
    }
  }

  lemma AllOkCons(v: Visit, rest: seq<Visit>)
    requires VisitOk(v) && AllOk(rest)
    ensures AllOk([v] + rest)
  {
    forall k | 0 <= k < |[v] + rest|
      ensures VisitOk(([v] + rest)[k])
    {
      if k > 0 {
        assert ([v] + rest)[k] == rest[k - 1];
      }
    }
  }

  lemma ReindentOk(src: string, n: nat)
    ensures VisitOk(Emit(src, Reindent(src, n)))
  {
    ReindentedReindent(src, n);
  }

  lemma TagVisitOk(t: nat, src: string)
    ensures VisitOk(TagVisit(t, src))
  {
    ReindentOk(src, t + 2);
  }

  lemma BlockLineOk(b: nat, src: string)
    ensures VisitOk(Emit(src, BlockLine(b, src)))
  {
    ReindentOk(src, b + 2);
    ReindentOk(src, b + 4);
  }

  lemma TaskLineOk(s: nat, src: string)
    ensures VisitOk(Emit(src, TaskLine(s, src)))
  {
    if Strip(src) == [] {
      ReindentOk(src, 0);
      assert Spaces(0) == [];
      assert Reindent(src, 0) == "\n" == TaskLine(s, src);
    } else {
      ReindentOk(src, s + 4);
    }
  }

  /** Only `register:` lines are dropped; every emitted line is the visited line, with the
      syslog module renamed where it appears, or the visited line's stripped text re-indented. */
  lemma {:induction false} RunVisitsOk(lines: seq<string>, i: nat, m: Mode)
    requires i <= |lines|
    ensures AllOk(Run(lines, i, m))
    decreases |lines| - i, ModeRank(m), 1
  {
    if i < |lines| {
      match m
      case Top => TopVisitsOk(lines, i);
      case InTags(t) => TagsVisitsOk(lines, i, t);
      case InBlock(b) => BlockVisitsOk(lines, i, b);
      case InSection(s) => SectionVisitsOk(lines, i, s);
      case InTask(s) => TaskVisitsOk(lines, i, s);
      case InWhen(w) => WhenVisitsOk(lines, i, w);
    }
  }

  // `RunVisitsOk` for each loop in turn: one step of the loop, then the rest of the scan.

  lemma {:induction false} TopVisitsOk(lines: seq<string>, i: nat)
    requires i < |lines|
    ensures AllOk(Run(lines, i, Top))
    decreases |lines| - i, 0, 0
  {
    var src := lines[i];
    var next := Lookahead(lines, i);
    assert next[i] == src;
    if MisplacedRegister(next, i) {
      RunVisitsOk(next, i + 1, Top);
      assert Run(lines, i, Top) == [Drop(src)] + Run(next, i + 1, Top);
      AllOkCons(Drop(src), Run(next, i + 1, Top));
    } else {
      RunVisitsOk(next, i + 1, Opened(src));
      assert Run(lines, i, Top) == [Emit(src, SyslogLine(src))] + Run(next, i + 1, Opened(src));
      AllOkCons(Emit(src, SyslogLine(src)), Run(next, i + 1, Opened(src)));
    }
  }

  lemma {:induction false} TagsVisitsOk(lines: seq<string>, i: nat, t: nat)
    requires i < |lines|
    ensures AllOk(Run(lines, i, InTags(t)))
    decreases |lines| - i, 1, 0
  {
    var src := lines[i];
    var stripped := Strip(src);
    if Contains(stripped, "register:") || StartsWith(stripped, "- ") {
      RunVisitsOk(lines, i + 1, InTags(t));
      TagVisitOk(t, src);
      assert Run(lines, i, InTags(t)) == [TagVisit(t, src)] + Run(lines, i + 1, InTags(t));
      AllOkCons(TagVisit(t, src), Run(lines, i + 1, InTags(t)));
    } else {
      assert Run(lines, i, InTags(t)) == Run(lines, i, Top);
      RunVisitsOk(lines, i, Top);
    }
  }

  lemma {:induction false} BlockVisitsOk(lines: seq<string>, i: nat, b: nat)
    requires i < |lines|
    ensures AllOk(Run(lines, i, InBlock(b)))
    decreases |lines| - i, 1, 0
  {
    var src := lines[i];
    if Strip(src) == [] {
      assert Run(lines, i, InBlock(b)) == Run(lines, i, Top);
      RunVisitsOk(lines, i, Top);
    } else {
      RunVisitsOk(lines, i + 1, InBlock(b));
      BlockLineOk(b, src);
      assert Run(lines, i, InBlock(b)) == [Emit(src, BlockLine(b, src))] + Run(lines, i + 1, InBlock(b));
      AllOkCons(Emit(src, BlockLine(b, src)), Run(lines, i + 1, InBlock(b)));
    }
  }

  lemma {:induction false} SectionVisitsOk(lines: seq<string>, i: nat, s: nat)
    requires i < |lines|
    ensures AllOk(Run(lines, i, InSection(s)))
    decreases |lines| - i, 1, 0
  {
    var src := lines[i];
    var stripped := Strip(src);
    if StartsWith(stripped, "- name:") {
      RunVisitsOk(lines, i + 1, InTask(s));
      ReindentOk(src, s + 2);
      assert Run(lines, i, InSection(s)) == [Emit(src, Reindent(src, s + 2))] + Run(lines, i + 1, InTask(s));
      AllOkCons(Emit(src, Reindent(src, s + 2)), Run(lines, i + 1, InTask(s)));
    } else if stripped != [] && !StartsWith(stripped, "#") && stripped in SectionEnders {
      assert Run(lines, i, InSection(s)) == Run(lines, i, Top);
      RunVisitsOk(lines, i, Top);
    } else {
      RunVisitsOk(lines, i + 1, InSection(s));
      assert Run(lines, i, InSection(s)) == [Emit(src, src)] + Run(lines, i + 1, InSection(s));
      AllOkCons(Emit(src, src), Run(lines, i + 1, InSection(s)));
    }
  }

  lemma {:induction false} TaskVisitsOk(lines: seq<string>, i: nat, s: nat)
    requires i < |lines|
    ensures AllOk(Run(lines, i, InTask(s)))
    decreases |lines| - i, 2, 0
  {
    var src := lines[i];
    var stripped := Strip(src);
    if StartsWith(stripped, "- name:") || stripped in TaskEnders {
      assert Run(lines, i, InTask(s)) == Run(lines, i, InSection(s));
      RunVisitsOk(lines, i, InSection(s));
    } else {
      RunVisitsOk(lines, i + 1, InTask(s));
      TaskLineOk(s, src);
      assert Run(lines, i, InTask(s)) == [Emit(src, TaskLine(s, src))] + Run(lines, i + 1, InTask(s));
      AllOkCons(Emit(src, TaskLine(s, src)), Run(lines, i + 1, InTask(s)));
    }
  }

  lemma {:induction false} WhenVisitsOk(lines: seq<string>, i: nat, w: nat)
    requires i < |lines|
    ensures AllOk(Run(lines, i, InWhen(w)))
    decreases |lines| - i, 1, 0
  {
    var src := lines[i];
    if StartsWith(Strip(src), "- ") {
      RunVisitsOk(lines, i + 1, InWhen(w));
      ReindentOk(src, w + 2);
      assert Run(lines, i, InWhen(w)) == [Emit(src, Reindent(src, w + 2))] + Run(lines, i + 1, InWhen(w));
      AllOkCons(Emit(src, Reindent(src, w + 2)), Run(lines, i + 1, InWhen(w)));
    } else {
      assert Run(lines, i, InWhen(w)) == Run(lines, i, Top);
      RunVisitsOk(lines, i, Top);
    }
  }

  lemma SourcedCons(lines: seq<string>, next: seq<string>, i: nat, v: Visit, rest: seq<Visit>)
    requires i < |lines| && |next| == |lines| && i + 1 + |rest| <= |lines|
    requires v.src == lines[i]
    requires next == lines
      || (Contains(lines[i], Syslog) && i + 1 < |lines| && Contains(lines[i + 1], "msg:")
          && next == lines[i + 1 := MsgToCmd(lines[i + 1])])
    requires Sourced(next, i + 1, rest)
    ensures Sourced(lines, i, [v] + rest)
  {
    var trace := [v] + rest;
    forall k | 0 <= k < |trace|
      ensures SourcedAt(lines, i, trace, k)
    {
      if k > 0 {
        assert trace[k] == rest[k - 1];
        assert SourcedAt(next, i + 1, rest, k - 1);
        if k > 1 {
          assert trace[k - 1] == rest[k - 2];
          assert next[i + k] == lines[i + k];
        } else if next != lines {
          assert trace[0].src == lines[i];
        }
      }
    }
  }

  /** Visit `k` of the scan from line `i` saw line `i + k` as it was read, or, right after a
      visit to a syslog line, that line with its `msg:` rewritten: lines are consumed left to
      right, one visit each, and the only line the scan rewrites ahead of itself is the one
      after a syslog line. */
  lemma {:induction false} RunSources(lines: seq<string>, i: nat, m: Mode)
    requires i <= |lines|
    ensures i + |Run(lines, i, m)| <= |lines| && Sourced(lines, i, Run(lines, i, m))
    decreases |lines| - i, ModeRank(m), 1
  {
    RunLength(lines, i, m);
    if i < |lines| {
      match m
      case Top => TopSources(lines, i);
      case InTags(t) => TagsSources(lines, i, t);
      case InBlock(b) => BlockSources(lines, i, b);
      case InSection(s) => SectionSources(lines, i, s);
      case InTask(s) => TaskSources(lines, i, s);
      case InWhen(w) => WhenSources(lines, i, w);
    }
  }

  // `RunSources` for each loop in turn: one step of the loop, then the rest of the scan.

  lemma {:induction false} TopSources(lines: seq<string>, i: nat)
    requires i < |lines|
    ensures i + |Run(lines, i, Top)| <= |lines| && Sourced(lines, i, Run(lines, i, Top))
    decreases |lines| - i, 0, 0
  {
    RunLength(lines, i, Top);
    var src := lines[i];
    var next := Lookahead(lines, i);
    var m' := if MisplacedRegister(next, i) then Top else Opened(src);
    var v := if MisplacedRegister(next, i) then Drop(src) else Emit(src, SyslogLine(src));
    RunSources(next, i + 1, m');
    assert Run(lines, i, Top) == [v] + Run(next, i + 1, m');
    SourcedCons(lines, next, i, v, Run(next, i + 1, m'));
  }

  lemma {:induction false} TagsSources(lines: seq<string>, i: nat, t: nat)
    requires i < |lines|
    ensures i + |Run(lines, i, InTags(t))| <= |lines| && Sourced(lines, i, Run(lines, i, InTags(t)))
    decreases |lines| - i, 1, 0
  {
    RunLength(lines, i, InTags(t));
    var src := lines[i];
    var stripped := Strip(src);
    if Contains(stripped, "register:") || StartsWith(stripped, "- ") {
      RunSources(lines, i + 1, InTags(t));
      assert Run(lines, i, InTags(t)) == [TagVisit(t, src)] + Run(lines, i + 1, InTags(t));
      SourcedCons(lines, lines, i, TagVisit(t, src), Run(lines, i + 1, InTags(t)));
    } else {
      assert Run(lines, i, InTags(t)) == Run(lines, i, Top);
      RunSources(lines, i, Top);
    }
  }

  lemma {:induction false} BlockSources(lines: seq<string>, i: nat, b: nat)
    requires i < |lines|
    ensures i + |Run(lines, i, InBlock(b))| <= |lines| && Sourced(lines, i, Run(lines, i, InBlock(b)))
    decreases |lines| - i, 1, 0
  {
    RunLength(lines, i, InBlock(b));
    var src := lines[i];
    if Strip(src) == [] {
      assert Run(lines, i, InBlock(b)) == Run(lines, i, Top);
      RunSources(lines, i, Top);
    } else {
      RunSources(lines, i + 1, InBlock(b));
      assert Run(lines, i, InBlock(b)) == [Emit(src, BlockLine(b, src))] + Run(lines, i + 1, InBlock(b));
      SourcedCons(lines, lines, i, Emit(src, BlockLine(b, src)), Run(lines, i + 1, InBlock(b)));
    }
  }

  lemma {:induction false} SectionSources(lines: seq<string>, i: nat, s: nat)
    requires i < |lines|
    ensures i + |Run(lines, i, InSection(s))| <= |lines| && Sourced(lines, i, Run(lines, i, InSection(s)))
    decreases |lines| - i, 1, 0
  {
    RunLength(lines, i, InSection(s));
    var src := lines[i];
    var stripped := Strip(src);
    if StartsWith(stripped, "- name:") {
      RunSources(lines, i + 1, InTask(s));
      assert Run(lines, i, InSection(s)) == [Emit(src, Reindent(src, s + 2))] + Run(lines, i + 1, InTask(s));
      SourcedCons(lines, lines, i, Emit(src, Reindent(src, s + 2)), Run(lines, i + 1, InTask(s)));
    } else if stripped != [] && !StartsWith(stripped, "#") && stripped in SectionEnders {
      assert Run(lines, i, InSection(s)) == Run(lines, i, Top);
      RunSources(lines, i, Top);
    } else {
      RunSources(lines, i + 1, InSection(s));
      assert Run(lines, i, InSection(s)) == [Emit(src, src)] + Run(lines, i + 1, InSection(s));
      SourcedCons(lines, lines, i, Emit(src, src), Run(lines, i + 1, InSection(s)));
    }
  }

  lemma {:induction false} TaskSources(lines: seq<string>, i: nat, s: nat)
    requires i < |lines|
    ensures i + |Run(lines, i, InTask(s))| <= |lines| && Sourced(lines, i, Run(lines, i, InTask(s)))
    decreases |lines| - i, 2, 0
  {
    RunLength(lines, i, InTask(s));
    var src := lines[i];
    var stripped := Strip(src);
    if StartsWith(stripped, "- name:") || stripped in TaskEnders {
      assert Run(lines, i, InTask(s)) == Run(lines, i, InSection(s));
      RunSources(lines, i, InSection(s));
    } else {
      RunSources(lines, i + 1, InTask(s));
      assert Run(lines, i, InTask(s)) == [Emit(src, TaskLine(s, src))] + Run(lines, i + 1, InTask(s));
      SourcedCons(lines, lines, i, Emit(src, TaskLine(s, src)), Run(lines, i + 1, InTask(s)));
    }
  }

  lemma {:induction false} WhenSources(lines: seq<string>, i: nat, w: nat)
    requires i < |lines|
    ensures i + |Run(lines, i, InWhen(w))| <= |lines| && Sourced(lines, i, Run(lines, i, InWhen(w)))
    decreases |lines| - i, 1, 0
  {
    RunLength(lines, i, InWhen(w));
    var src := lines[i];
    if StartsWith(Strip(src), "- ") {
      RunSources(lines, i + 1, InWhen(w));
      assert Run(lines, i, InWhen(w)) == [Emit(src, Reindent(src, w + 2))] + Run(lines, i + 1, InWhen(w));
      SourcedCons(lines, lines, i, Emit(src, Reindent(src, w + 2)), Run(lines, i + 1, InWhen(w)));
    } else {
      assert Run(lines, i, InWhen(w)) == Run(lines, i, Top);
      RunSources(lines, i, Top);
    }
  }

  // ------------------------------------------------- the sub-loops, region by region

  /** `TagVisit` applied to each line of `seg`. */
  function TagVisits(t: nat, seg: seq<string>): seq<Visit> {
    if seg == [] then [] else [TagVisit(t, seg[0])] + TagVisits(t, seg[1..])
  }

  /** A `tags:` list at `t` running from `lines[lo]` up to `lines[k]`, the first line that is neither a `register:` line nor a `- ` item (a blank line included): each `register:` line is dropped, each item goes to `t + 2`, and the top level resumes at `lines[k]`. */
  lemma {:induction false} TagsRegion(lines: seq<string>, t: nat, lo: nat, k: nat)
    requires lo <= k <= |lines|
    requires forall j :: lo <= j < k ==> Contains(Strip(lines[j]), "register:") || StartsWith(Strip(lines[j]), "- ")
    requires k == |lines| || !(Contains(Strip(lines[k]), "register:") || StartsWith(Strip(lines[k]), "- "))
    ensures TagsLoop(lines, lo, t) == TagVisits(t, lines[lo..k]) + TopLoop(lines, k)
    decreases k - lo
  {
    if lo == k {
      assert lines[lo..k] == [];
    } else {
      TagsRegion(lines, t, lo + 1, k);
      assert lines[lo..k][0] == lines[lo] && lines[lo..k][1..] == lines[lo + 1..k];
      assert TagsLoop(lines, lo, t) == [TagVisit(t, lines[lo])] + TagsLoop(lines, lo + 1, t);
      AppendAssoc([TagVisit(t, lines[lo])], TagVisits(t, lines[lo + 1..k]), TopLoop(lines, k));
    }
  }

  /** Each line of `seg` emitted as `BlockLine` makes it. */
  function BlockVisits(b: nat, seg: seq<string>): seq<Visit> {
    if seg == [] then [] else [Emit(seg[0], BlockLine(b, seg[0]))] + BlockVisits(b, seg[1..])
  }

  /** The lines after a `block:` at `b`, from `lines[lo]` up to the first blank line `lines[k]`: each is rewritten on its own by `BlockLine`, whatever its indent (a dedent does not end the block), and the top level resumes at the blank line. */
  lemma {:induction false} BlockRegion(lines: seq<string>, b: nat, lo: nat, k: nat)
    requires lo <= k <= |lines|
    requires forall j :: lo <= j < k ==> Strip(lines[j]) != []
    requires k == |lines| || Strip(lines[k]) == []
    ensures BlockLoop(lines, lo, b) == BlockVisits(b, lines[lo..k]) + TopLoop(lines, k)
    decreases k - lo
  {
    if lo == k {
      assert lines[lo..k] == [];
    } else {
      BlockRegion(lines, b, lo + 1, k);
      assert lines[lo..k][0] == lines[lo] && lines[lo..k][1..] == lines[lo + 1..k];
      assert BlockLoop(lines, lo, b) == [Emit(lines[lo], BlockLine(b, lines[lo]))] + BlockLoop(lines, lo + 1, b);
      AppendAssoc([Emit(lines[lo], BlockLine(b, lines[lo]))], BlockVisits(b, lines[lo + 1..k]), TopLoop(lines, k));
    }
  }

  /** Each line of `seg` emitted as `TaskLine` makes it. */
  function TaskVisits(s: nat, seg: seq<string>): seq<Visit> {
    if seg == [] then [] else [Emit(seg[0], TaskLine(s, seg[0]))] + TaskVisits(s, seg[1..])
  }

  /** The body of a task in a section at `s`, from `lines[lo]` up to the next `- name:` or section keyword `lines[k]`: every non-blank line is flattened to `s + 4` and every blank line becomes `"\n"`, and the section loop resumes at `lines[k]`. */
  lemma {:induction false} TaskRegion(lines: seq<string>, s: nat, lo: nat, k: nat)
    requires lo <= k <= |lines|
    requires forall j :: lo <= j < k ==> !(StartsWith(Strip(lines[j]), "- name:") || Strip(lines[j]) in TaskEnders)
    requires k == |lines| || StartsWith(Strip(lines[k]), "- name:") || Strip(lines[k]) in TaskEnders
    ensures TaskLoop(lines, lo, s) == TaskVisits(s, lines[lo..k]) + SectionLoop(lines, k, s)
    decreases k - lo
  {
    if lo == k {
      assert lines[lo..k] == [];
    } else {
      TaskRegion(lines, s, lo + 1, k);
      assert lines[lo..k][0] == lines[lo] && lines[lo..k][1..] == lines[lo + 1..k];
      assert TaskLoop(lines, lo, s) == [Emit(lines[lo], TaskLine(s, lines[lo]))] + TaskLoop(lines, lo + 1, s);
      AppendAssoc([Emit(lines[lo], TaskLine(s, lines[lo]))], TaskVisits(s, lines[lo + 1..k]), SectionLoop(lines, k, s));
    }
  }

  /** Each line of `seg` emitted as it stands. */
  function KeptVisits(seg: seq<string>): seq<Visit> {
    if seg == [] then [] else [Emit(seg[0], seg[0])] + KeptVisits(seg[1..])
  }

  /** A line at which the section loop stops copying: a `- name:` task, or a non-comment
      section keyword. */
  predicate SectionStop(line: string) {
    var stripped := Strip(line);
    StartsWith(stripped, "- name:") || (stripped != [] && !StartsWith(stripped, "#") && stripped in SectionEnders)
  }

  /** A section at `s`, from `lines[lo]` up to the first stop `lines[k]`: every line before
      the stop is copied as it stands; at a `- name:` stop the task goes to `s + 2` and its
      body follows, at a section keyword the section ends and the top level resumes there. */
  lemma {:induction false} SectionRegion(lines: seq<string>, s: nat, lo: nat, k: nat)
    requires lo <= k <= |lines|
    requires forall j :: lo <= j < k ==> !SectionStop(lines[j])
    requires k == |lines| || SectionStop(lines[k])
    ensures SectionLoop(lines, lo, s) == KeptVisits(lines[lo..k]) +
      (if k == |lines| then []
       else if StartsWith(Strip(lines[k]), "- name:") then [Emit(lines[k], Reindent(lines[k], s + 2))] + TaskLoop(lines, k + 1, s)
       else TopLoop(lines, k))
    decreases k - lo
  {
    var rest := if k == |lines| then []
      else if StartsWith(Strip(lines[k]), "- name:") then [Emit(lines[k], Reindent(lines[k], s + 2))] + TaskLoop(lines, k + 1, s)
      else TopLoop(lines, k);
    if lo == k {
      assert lines[lo..k] == [];
    } else {
      SectionRegion(lines, s, lo + 1, k);
      assert lines[lo..k][0] == lines[lo] && lines[lo..k][1..] == lines[lo + 1..k];
      assert SectionLoop(lines, lo, s) == [Emit(lines[lo], lines[lo])] + SectionLoop(lines, lo + 1, s);
      AppendAssoc([Emit(lines[lo], lines[lo])], KeptVisits(lines[lo + 1..k]), rest);
    }
  }

  /** The outer loop drops line `i` exactly when, after the lookahead, it is a misplaced
      `register:` line, and otherwise emits it with the syslog module renamed. */
  lemma TopDrops(lines: seq<string>, i: nat)
    requires i < |lines|
    ensures TopLoop(lines, i) != []
    ensures TopLoop(lines, i)[0].Drop? <==> MisplacedRegister(Lookahead(lines, i), i)
    ensures TopLoop(lines, i)[0] == if MisplacedRegister(Lookahead(lines, i), i) then Drop(lines[i]) else Emit(lines[i], SyslogLine(lines[i]))
  {
  }

  /** Each line of `seg` emitted two columns deeper than `w`. */
  function WhenVisits(w: nat, seg: seq<string>): seq<Visit> {
    if seg == [] then [] else [Emit(seg[0], Reindent(seg[0], w + 2))] + WhenVisits(w, seg[1..])
  }

  /** The items after a bare `when:` at `w`, from `lines[lo]` up to the first line `lines[k]` that is not a `- ` item: each goes to `w + 2`, and the top level resumes at `lines[k]`. */
  lemma {:induction false} WhenRegion(lines: seq<string>, w: nat, lo: nat, k: nat)
    requires lo <= k <= |lines|
    requires forall j :: lo <= j < k ==> StartsWith(Strip(lines[j]), "- ")
    requires k == |lines| || !StartsWith(Strip(lines[k]), "- ")
    ensures WhenLoop(lines, lo, w) == WhenVisits(w, lines[lo..k]) + TopLoop(lines, k)
    decreases k - lo
  {
    if lo == k {
      assert lines[lo..k] == [];
    } else {
      WhenRegion(lines, w, lo + 1, k);
      assert lines[lo..k][0] == lines[lo] && lines[lo..k][1..] == lines[lo + 1..k];
      assert WhenLoop(lines, lo, w) == [Emit(lines[lo], Reindent(lines[lo], w + 2))] + WhenLoop(lines, lo + 1, w);
      AppendAssoc([Emit(lines[lo], Reindent(lines[lo], w + 2))], WhenVisits(w, lines[lo + 1..k]), TopLoop(lines, k));
    }
  }

  // ------------------------------------------------- the whole scan, and the syslog rewrite

  /** `fix_yaml_file` visits every line of the guarded input once, in order (the one after
      a syslog line possibly rewritten), drops only `register:` lines and emits every other
      line as it stood, with the syslog module renamed, or re-indented. The first line is
      never dropped. */
  lemma FixYamlFileVisits(input: seq<string>)
    ensures var prepared := EnsureDocStart(input);
      var trace := Run(prepared, 0, Top);
      |trace| == |prepared| && Sourced(prepared, 0, trace) && AllOk(trace)
      && FixedLines(input) == Texts(trace)
      && trace[0] == Emit(prepared[0], SyslogLine(prepared[0]))
  {
    var prepared := EnsureDocStart(input);
    RunLength(prepared, 0, Top);
    RunSources(prepared, 0, Top);
    RunVisitsOk(prepared, 0, Top);
  }

  /** Group 1 of the `msg:` search on a typical line: the message without its leading
      blank and its newline. */
  lemma MsgTextExample()
    ensures MsgText("  msg: hi\n") == "hi"
  {
    var l := "  msg: hi\n";
    assert AfterFirst(l, "msg:") == " hi\n" by {
      assert !StartsWith(l, "msg:") by { assert l[0] != 'm'; }
      assert !StartsWith(l[1..], "msg:") by { assert l[1] != 'm'; }
      var t := l[1..][1..];
      assert t == "msg: hi\n" && t[..4] == "msg:" && t[4..] == " hi\n";
    }
    assert LStrip(" hi\n") == "hi\n" by {
      assert " hi\n"[1..] == "hi\n";
    }
    assert BeforeSep("hi\n", '\n') == "hi" by {
      assert "hi\n"[1..] == "i\n" && "i\n"[1..] == "\n";
      assert BeforeSep("\n", '\n') == [];
    }
  }

  /** `AfterFirst` passes over text in which the pattern does not start. */
  lemma {:induction false} AfterFirstSkips(a: string, b: string, pat: string)
    requires NoStartIn(a, b, pat)
    ensures AfterFirst(a + b, pat) == AfterFirst(b, pat)
    decreases |a|
  {
    if a == [] {
      assert a + b == b;
    } else {
      assert (a + b)[1..] == a[1..] + b;
      AfterFirstSkips(a[1..], b, pat);
    }
  }

  /** Group 1 of the `msg:` search on any line `p msg: w m` with its newline: the message
      `m`, for a prefix `p` without `msg:`, a run of whitespace `w` and a message that does
      not start with whitespace and holds no newline. */
  lemma MsgTextOf(p: string, w: string, m: string)
    requires !Contains(p, "msg:") && AllSpace(w)
    requires '\n' !in m && (m == [] || !IsSpace(m[0]))
    ensures MsgText(p + "msg:" + w + m + "\n") == m
  {
    var rest := w + m + "\n";
    KeyLineShape(p, "msg:", w, m);
    AppendAssoc(w, m, "\n");
    NoStartInFree(p, "msg:", rest);
    AfterFirstSkips(p, "msg:" + rest, "msg:");
    assert ("msg:" + rest)[..4] == "msg:" && ("msg:" + rest)[4..] == rest;
    LStripSpacesPrefix(w, m + "\n");
    if m == [] {
      assert m + "\n" == "\n" && "\n"[1..] == [];
    } else {
      assert (m + "\n")[0] == m[0];
      BeforeSepOf(m, '\n');
    }
  }

  /** Whitespace and a message without `msg:` and without a newline, with the line's
      newline after them, hold no `msg:`. */
  lemma MsgTailFree(w: string, m: string)
    requires AllSpace(w) && '\n' !in m && !Contains(m, "msg:")
    ensures !Contains(w + m + "\n", "msg:")
  {
    assert w + m + "\n" == w + (m + ['\n']);
    ContainsAfterSpaces(w, m + ['\n'], "msg:");
    ContainsBeforeChar(m, '\n', "msg:");
  }

  /** Renaming `msg:` to `cmd:` touches only the `msg:` key on a line that has it once. */
  lemma RenameMsgKey(p: string, w: string, m: string)
    requires !Contains(p, "msg:") && !Contains(w + m + "\n", "msg:")
    ensures Replace(p + "msg:" + w + m + "\n", "msg:", "cmd:") == p + "cmd:" + w + m + "\n"
  {
    var rest := w + m + "\n";
    NoStartInFree(p, "msg:", rest);
    ReplaceAfter(p, "msg:" + rest, "msg:", "cmd:");
    assert ("msg:" + rest)[..4] == "msg:" && ("msg:" + rest)[4..] == rest;
    ReplaceFirst("msg:" + rest, "msg:", "cmd:");
    KeyLineShape(p, "msg:", w, m);
    KeyLineShape(p, "cmd:", w, m);
  }

  /** A line `p k w m` with its newline, split after its key `k`. */
  lemma KeyLineShape(p: string, k: string, w: string, m: string)
    ensures p + k + w + m + "\n" == p + (k + (w + m + "\n"))
  {
    AppendAssoc(p, k, w + m + "\n");
    AppendAssoc(p + k, w + m, "\n");
    AppendAssoc(p + k, w, m);
  }

  /** Replacing the message by `logger <message>` on a line `h m` with its newline, where
      no occurrence of the message starts inside `h`. */
  lemma LoggerAtMessage(h: string, m: string)
    requires m != [] && '\n' !in m && NoStartIn(h, m + "\n", m)
    ensures Replace(h + m + "\n", m, "logger " + m) == h + "logger " + m + "\n"
  {
    var rep := "logger " + m;
    ReplaceAfter(h, m + "\n", m, rep);
    assert (m + "\n")[..|m|] == m && (m + "\n")[|m|..] == "\n";
    ReplaceFirst(m + "\n", m, rep);
    NewlineLacks(m);
    AppendAssoc(h, m, "\n");
    AppendAssoc(h, rep, "\n");
    AppendAssoc(h, "logger ", m);
  }

  lemma NewlineLacks(m: string)
    requires m != [] && '\n' !in m
    ensures !Contains("\n", m)
  {
    assert "\n"[1..] == [];
    if |m| == 1 {
      assert m[0] != '\n';
    }
  }

  /** The line after a syslog line, `p msg: w m` with its newline, as the rewrite leaves it:
      `p cmd: w logger m`, when `msg:` occurs in it only as its key and no occurrence of the
      message starts before the message itself in the renamed line. */
  lemma MsgToCmdOf(p: string, w: string, m: string)
    requires !Contains(p, "msg:") && AllSpace(w)
    requires m != [] && !IsSpace(m[0]) && '\n' !in m && !Contains(m, "msg:")
    requires NoStartIn(p + "cmd:" + w, m + "\n", m)
    ensures MsgToCmd(p + "msg:" + w + m + "\n") == p + "cmd:" + w + "logger " + m + "\n"
  {
    MsgTextOf(p, w, m);
    MsgTailFree(w, m);
    RenameMsgKey(p, w, m);
    LoggerAtMessage(p + "cmd:" + w, m);
  }

  /** Renaming `msg:` to `cmd:` keeps the line's length. */
  lemma MsgRenameLength(line: string)
    ensures |Replace(line, "msg:", "cmd:")| == |line|
  {
    ReplaceSameLength(line, "msg:", "cmd:");
  }

  /** A `msg:` with nothing after it on its line leaves an empty message, and replacing the
      empty string puts `logger ` before every character and at the end: the rewritten line
      is eight times as long as the original, plus seven. */
  lemma {:induction false} MsgToCmdEmptyMessage(line: string)
    requires MsgText(line) == []
    ensures |MsgToCmd(line)| == 8 * |line| + 7
  {
    var renamed := Replace(line, "msg:", "cmd:");
    MsgRenameLength(line);
    ReplaceEmptyLength(renamed, "logger ");
    assert "logger " + [] == "logger ";
  }

  /** The empty message does occur: a `msg:` at the end of its line. */
  lemma MsgTextEmptyExample()
    ensures MsgText("msg:\n") == []
  {
    assert AfterFirst("msg:\n", "msg:") == "\n";
    assert LStrip("\n") == [];
  }
}
