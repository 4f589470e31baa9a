# Ansible YAML fixers, modelled in Dafny

The repository keeps its Ansible playbooks tidy with three Python scripts. Each one rewrites a
playbook's text line by line. This project models what they do to that text:

- **scripts/yaml_indent_fix.py**: a document-start guard (`ensure_doc_start`) and four
  indentation passes. The passes are `fix_mapping_list_indentation`,
  `fix_section_task_indentation`, `fix_block_children_indentation` and
  `fix_module_arg_indentation`. `process_file` chains the five steps and writes the file back
  only when the line list changed. The model is `IndentFix.dfy`.
- **fix_all_yaml.py**: `fix_yaml_file`, one index-driven scan with sub-loops for `tags:`,
  `block:`, task sections and `when:`. It drops misplaced `register:` lines, re-indents list
  items and task bodies, and renames the non-existent `ansible.builtin.syslog` module to a
  `logger` shell call. When it does that rename it also rewrites the next line of its own
  input list. The model is `FixAllYaml.dfy`.
- **fix_all_lint_issues.py**, class `AnsibleLintFixer`: `fix_task_key_order`,
  `fix_ignore_errors`, `fix_shell_pipefail` and `fix_jinja2_spacing`. The model is
  `LintFixer.dfy`.

`Text.dfy` writes out the Python `str` operations the scripts use, character by character:

- `isspace`/`\s`, `strip`, `lstrip`, `rstrip`, `startswith`, `endswith`, `in`, `replace`;
- `split('\n')` and `'\n'.join`;
- the `_indent` helper.

This keeps the edge cases the Python runtime has. A line holding only `"\n"` has indent 1, and
replacing the empty string inserts text before every character and once more at the end.

## How the model is built

**Passes as functions, loops as methods.** Each pass is a recursive function of the line list
and of the one bit of state the source keeps: whether a region is open, and at which base
indent. The source's own nested `while`/`for` loops are written as Dafny methods, with
invariants of the form "emitted so far + what the function does with the rest = what the
function does with everything". Each method is proved to compute its function exactly. The
properties are proved about the functions, in the `*Properties` modules.

**The `fix_all_yaml.py` scan and its changing list.** That scan changes its own input list as
it goes. Its function (`FixAllYaml.Run`) records, for every visited line, the line as it stood
when the scan reached it, and what became of that line. The scan is proved to emit exactly the
texts of that record.

**Dicts in `fix_task_key_order`.** The task dict is modelled as an insertion-ordered key list
plus a value map (`LintFixer.Task`). A node that is not a dict is left opaque.

**Behaviour the proofs bring out (code as written):**

- *`fix_block_children_indentation` is not idempotent.* A plain child line at the indent of
  `block:` moves two columns deeper on the first run and two more on the second
  (`BlockChildrenNotIdempotent`); at four columns deeper it matches no rule of the pass. The other three
  indentation passes are idempotent, but the whole script is not: on `---`, `block:`, `x` its first
  run and its second give different files (`PipelineNotIdempotent`).
- *A `msg:` line with an empty message is mangled.* In `fix_all_yaml.py` such a line, after a
  syslog line, makes `str.replace('', 'logger ')` insert `logger ` before every character
  and once after the last (`MsgToCmdEmptyMessage`).
- *The `register:` value is dropped.* The value `fix_all_yaml.py` reads from a misplaced
  `register:` line (line 62) is never written out: the line is dropped.
- *Block-scalar shell lines get no `pipefail`.* In `fix_shell_pipefail`, a `shell: |` line
  without "pipefail" fails the test at line 106 and is then passed through unchanged. The
  `elif` at line 122 is reachable only for a block-scalar line that already contains
  "pipefail" (`PipefailBlockScalar`).
- *The third loop of `fix_task_key_order` adds nothing.* Every key has been added by the first
  two loops by the time it runs.

## Model

| member | source | states |
|---|---|---|
| Text.IndentSpec | scripts/yaml_indent_fix.py:39 | `len(s) - len(s.lstrip())` is the length of the run of Python whitespace the line starts with |
| Text.StripSpec | scripts/yaml_indent_fix.py:23 | `strip()` keeps exactly the text between the leading and the trailing whitespace, and that text neither starts nor ends with whitespace |
| Text.JoinSplit | fix_all_lint_issues.py:161-176 | `'\n'.join(s.split('\n'))` gives back `s` |
| Text.SplitJoin | fix_all_lint_issues.py:94-138 | splitting a join of newline-free lines gives back those lines |
| Text.StripReindent | scripts/yaml_indent_fix.py:109-110 | `_indent(s, n)` keeps the stripped text of `s` |
| Text.IndentReindent | scripts/yaml_indent_fix.py:109-110 | `_indent(s, n)` of a non-blank line is exactly `n` deep |
| Text.ReplaceEmptyLength | fix_all_yaml.py:38 | `str.replace` with an empty pattern inserts the replacement at all `len(s) + 1` positions |
| IndentFix.IsCommentOrBlank | scripts/yaml_indent_fix.py:22-24 | a line is comment-or-blank iff it is all whitespace or its first non-whitespace character is `#` |
| IndentFix.EnsureDocStart | scripts/yaml_indent_fix.py:101-106 | the result always starts with a `---` line; the list is returned unchanged iff it already starts with one, otherwise `---\n` is put in front |
| IndentFix.FixMappingListIndentation | scripts/yaml_indent_fix.py:27-64 | the nested loops compute the mapping-list pass function `MappingList` |
| IndentFix.FixSectionTaskIndentation | scripts/yaml_indent_fix.py:67-98 | the nested loops compute the section-task pass function `SectionTasks` |
| IndentFix.FixBlockChildrenIndentation | scripts/yaml_indent_fix.py:179-212 | the nested loops compute the block-children pass function `BlockChildren` |
| IndentFix.FixModuleArgIndentation | scripts/yaml_indent_fix.py:113-176 | the nested loops compute the module-argument pass function `ModuleArgs` |
| IndentFix.ProcessLines | scripts/yaml_indent_fix.py:215-229 | the content is the five steps applied in order, and it is written back iff it differs from the original lines |
| IndentFixProperties.MappingListLines | scripts/yaml_indent_fix.py:27-64 | one output line per input line; a line is kept, or it is a `- ` item whose text moved exactly two columns deeper |
| IndentFixProperties.SectionTasksLines | scripts/yaml_indent_fix.py:67-98 | one output line per input line; a line is kept, or it is a `- name:` task re-emitted deeper with its text unchanged |
| IndentFixProperties.BlockChildrenLines | scripts/yaml_indent_fix.py:179-212 | one output line per input line; each is kept, or its non-blank text moved exactly two columns deeper |
| IndentFixProperties.ModuleArgsLines | scripts/yaml_indent_fix.py:113-176 | one output line per input line; each is kept, or its non-blank text moved exactly two columns deeper |
| IndentFixProperties.PipelinePreservesContent | scripts/yaml_indent_fix.py:222-226 | the chain keeps the number of lines and the stripped text of every line, and keeps the `---` first line |
| IndentFixProperties.MappingListIdempotent | scripts/yaml_indent_fix.py:27-64 | running the mapping-list pass twice is running it once |
| IndentFixProperties.SectionTasksIdempotent | scripts/yaml_indent_fix.py:67-98 | running the section-task pass twice is running it once |
| IndentFixProperties.ModuleArgsIdempotent | scripts/yaml_indent_fix.py:113-176 | running the module-argument pass twice is running it once |
| IndentFixProperties.BlockChildrenNotIdempotent | scripts/yaml_indent_fix.py:201-210 | a plain child at the indent of `block:` moves two columns deeper on the first run and two more on the second |
| IndentFixProperties.PipelineNotIdempotent | scripts/yaml_indent_fix.py:222-226 | on the file `---`, `block:`, `x` one run of the pass chain indents `x` by two, a second run over that output indents it by four, so the two results differ |
| IndentFixProperties.MappingListRegion | scripts/yaml_indent_fix.py:35-60 | after a key line of the mapping-list keys, every line up to the first boundary (blank, a shallower-or-equal `:` line, or a non-item at or left of the key) has only its `- ` items at the key's indent moved to two deeper |
| IndentFixProperties.SectionTasksRegion | scripts/yaml_indent_fix.py:73-94 | after a `tasks:`-style line, every line up to the first `:` line at or left of it has its `- name:` tasks at or left of the key moved to two deeper |
| IndentFixProperties.BlockChildrenRegion | scripts/yaml_indent_fix.py:190-210 | after `block:`, every line up to the first one left of it is treated by the child rule |
| IndentFixProperties.ModuleArgsRegion | scripts/yaml_indent_fix.py:147-174 | after a module line, every line up to the first dedent or task-level key at the module's indent has its non-blank lines at that indent moved two deeper |
| FixAllYaml.SyslogLine | fix_all_yaml.py:30-31 | a line that does not name the syslog module is left as it is; a line that does is renamed so that it names `ansible.builtin.shell` and no longer names `ansible.builtin.syslog` anywhere |
| Text.ReplaceRemoves | fix_all_yaml.py:31 | `str.replace(pat, rep)` leaves no occurrence of `pat`, not even one straddling an inserted `rep`, when `rep` is no prefix of `pat` and neither starts with a character found later in the other |
| Text.ReplaceInserts | fix_all_yaml.py:31 | `str.replace(pat, rep)` on a text holding `pat` gives a text holding `rep` |
| FixAllYaml.Lookahead | fix_all_yaml.py:31-38 | the lookahead at line `i` keeps the list's length, and changes at most line `i + 1`, into its `msg:`-to-`cmd:` rewrite |
| FixAllYaml.FixYamlFile | fix_all_yaml.py:17-169 | the scan with its loops emits exactly the texts of the record `Run` of the document-started lines |
| FixAllYamlProperties.RunLength | fix_all_yaml.py:26-169 | every line from the current one on is visited exactly once |
| FixAllYamlProperties.RunVisitsOk | fix_all_yaml.py:40-169 | only lines holding `register:` are dropped; every other line is emitted as it was, with the syslog module renamed, or its stripped text re-indented |
| FixAllYamlProperties.RunSources | fix_all_yaml.py:26-38 | visit `k` saw input line `k`, or, right after a syslog line, that line with its `msg:` rewritten |
| FixAllYamlProperties.TagsRegion | fix_all_yaml.py:52-76 | inside `tags:`, every line up to the first one that is neither a `register:` nor a `- ` item is dropped (register) or moved to two deeper (item), then the scan resumes at top level |
| FixAllYamlProperties.BlockRegion | fix_all_yaml.py:79-101 | under `block:`, every line up to the first blank one is treated by the block rule, then the scan resumes at top level on the blank line |
| FixAllYamlProperties.TaskRegion | fix_all_yaml.py:118-138 | a task's body up to the next `- name:` or section key is flattened to four past the section, then the section loop resumes |
| FixAllYamlProperties.SectionRegion | fix_all_yaml.py:103-149 | in a `tasks:`-style section, every line up to the first `- name:` or non-comment section keyword is copied as it stands; a `- name:` then goes to two past the section and its body follows, a section keyword ends the section and the scan resumes at top level on it |
| FixAllYamlProperties.TopDrops | fix_all_yaml.py:40-49 | the outer loop drops a line exactly when, after the lookahead, it is a non-comment `register:` line after `tags:` or after a `- ` item that follows a `tags:` line; otherwise it emits the line with the syslog module renamed |
| FixAllYamlProperties.WhenRegion | fix_all_yaml.py:152-165 | under `when:`, every `- ` item up to the first other line is moved to two deeper |
| FixAllYamlProperties.FixYamlFileVisits | fix_all_yaml.py:17-169 | the output is the emitted texts of a record with one visit per document-started line, each sourced, each allowed, the first one always emitted |
| FixAllYamlProperties.MsgTextOf | fix_all_yaml.py:35-37 | on every line `p msg: w m` with its newline, where `p` holds no `msg:`, `w` is whitespace and `m` holds no newline and does not start with whitespace, the captured message is exactly `m` |
| FixAllYamlProperties.MsgToCmdOf | fix_all_yaml.py:35-38 | such a line with a non-empty message free of `msg:` becomes `p cmd: w logger m` with its newline, provided no occurrence of `m` in the renamed line starts before the message itself |
| FixAllYamlProperties.MsgTextExample | fix_all_yaml.py:35-37 | on a typical line the captured message is the text after `msg:` and its blank, without the newline |
| FixAllYamlProperties.MsgRenameLength | fix_all_yaml.py:38 | renaming `msg:` to `cmd:` keeps the line's length |
| FixAllYamlProperties.MsgToCmdEmptyMessage | fix_all_yaml.py:35-38 | an empty message makes the rewritten line `8 * len + 7` long: `logger ` inserted before every character and after the last |
| FixAllYamlProperties.MsgTextEmptyExample | fix_all_yaml.py:35-37 | the empty message occurs: `msg:` at the end of its line |
| LintFixer.KeyOrderIsPriorityList | fix_all_lint_issues.py:30-36 | the key order lists 25 distinct keys, none holding a `.` |
| LintFixer.Listed | fix_all_lint_issues.py:41-43 | the first loop adds exactly the listed keys the task holds |
| LintFixer.Unlisted | fix_all_lint_issues.py:46-49 | the second loop adds exactly the task's keys that the order does not list |
| LintFixer.TaskKeyOrder | fix_all_lint_issues.py:26-27 | a non-dict comes back unchanged; a dict comes back a dict with the same values |
| LintFixer.FixTaskKeyOrder | fix_all_lint_issues.py:24-56 | the method computes `TaskKeyOrder` |
| LintFixer.OrderKeys | fix_all_lint_issues.py:38-56 | the three loops filling the `OrderedDict` give the listed keys in list order, then the unlisted keys in task order, each with the task's value |
| LintFixer.AddListedKeys | fix_all_lint_issues.py:41-43 | the first loop leaves the dict holding exactly the listed keys in list order, each with the task's value |
| LintFixer.AddUnlistedKeys | fix_all_lint_issues.py:46-49 | the second loop appends exactly the unlisted keys in task order, each with the task's value |
| LintFixerProperties.ReorderKeysPermutes | fix_all_lint_issues.py:38-56 | the new key list is a permutation of the old one, without duplicates |
| LintFixerProperties.ReorderKeysSorted | fix_all_lint_issues.py:30-54 | keys come in non-decreasing position in the key order, unlisted keys last |
| LintFixerProperties.ReorderKeysStable | fix_all_lint_issues.py:46-49 | the unlisted keys keep their relative order |
| LintFixerProperties.ReorderKeysIdempotent | fix_all_lint_issues.py:38-56 | reordering twice is reordering once |
| LintFixerProperties.TaskKeyOrderPermutes | fix_all_lint_issues.py:24-56 | the result of a well-formed dict is well-formed, with the same keys, each mapped to the same value; a non-dict is returned as is |
| LintFixerProperties.TaskKeyOrderSorted | fix_all_lint_issues.py:30-54 | a fixed task's keys follow the key order, and its unlisted keys keep their order |
| LintFixerProperties.TaskKeyOrderIdempotent | fix_all_lint_issues.py:24-56 | fixing a task twice is fixing it once |
| LintFixer.LeadingSpace | fix_all_lint_issues.py:170-171 | group 1 of `(\s*)` is exactly the line's leading whitespace |
| LintFixer.IgnoreErrorsLines | fix_all_lint_issues.py:164-174 | the loop keeps the line count, and each output line is the fixed input line at that position |
| LintFixer.FixIgnoreErrors | fix_all_lint_issues.py:159-176 | the method computes `IgnoreErrors` |
| LintFixerProperties.IgnoreErrorsLineFix | fix_all_lint_issues.py:166-172 | a matching line becomes `failed_when: false` at its own indent; any other line is unchanged; no fixed line matches again |
| LintFixerProperties.IgnoreErrorsPerLine | fix_all_lint_issues.py:161-176 | the text has as many lines as before, and line `k` is input line `k`, fixed |
| LintFixerProperties.IgnoreErrorsIdempotent | fix_all_lint_issues.py:159-176 | running `fix_ignore_errors` twice is running it once |
| LintFixer.Pipefail | fix_all_lint_issues.py:98-136 | the loop never emits fewer lines than it reads |
| LintFixer.FixShellPipefail | fix_all_lint_issues.py:92-138 | the method computes `ShellPipefail` |
| LintFixer.PipefailBody | fix_all_lint_issues.py:99-135 | one pass of the loop body appends what `Pipefail` emits for the current line, and every branch moves on by exactly one line |
| LintFixerProperties.PipeInCommand | fix_all_lint_issues.py:112-115 | on a shell line holding `|`, the capture at line 112 succeeds and the command keeps the `|` |
| LintFixerProperties.PipefailOneLiner | fix_all_lint_issues.py:104-121 | a piped one-liner without pipefail becomes `shell: |`, `set -o pipefail` and the command, at its indent with its prefix |
| LintFixerProperties.PipefailBlockScalar | fix_all_lint_issues.py:122-133 | a shell line ending in `|` is emitted unchanged, followed by `set -o pipefail` at the next line's indent iff it contains "pipefail" itself and the next line does not |
| LintFixerProperties.PipefailOtherLine | fix_all_lint_issues.py:101-135 | a line that is neither a piped one-liner nor a shell line ending in `\|` is passed through, shell lines such as `shell: echo hi` included |
| LintFixerProperties.OneLinerRewriteSettled | fix_all_lint_issues.py:117-119 | none of the three rewritten lines triggers the rewrite again, unless the command itself starts with `shell:` |
| LintFixerProperties.PipefailLeavesNoBarePipe | fix_all_lint_issues.py:98-136 | when no piped single-line shell call's command itself starts with a `shell:` key, no output line is a piped single-line shell call without pipefail |
| LintFixerProperties.PipefailNoNewline | fix_all_lint_issues.py:94-138 | no emitted line holds a newline |
| LintFixerProperties.ShellPipefailLines | fix_all_lint_issues.py:94-138 | the lines of the fixed text are exactly the lines the loop emitted |
| LintFixerProperties.ShellPipefailLeavesNoBarePipe | fix_all_lint_issues.py:92-138 | when no piped single-line shell call's command itself starts with a `shell:` key, the fixed text holds no piped single-line shell call without pipefail |
| LintFixerProperties.SpaceAfterOpenSettled | fix_all_lint_issues.py:143 | no `{{` directly followed by a character other than `{` and space is left anywhere in the result |
| LintFixerProperties.SpaceBeforeCloseSettled | fix_all_lint_issues.py:145 | no `}}` directly after a character other than `}` and space is left anywhere in the result |
| LintFixerProperties.SpaceBeforeCallSettled | fix_all_lint_issues.py:154 | for a non-empty filter name without `\|` or space, no `\|name(` is left anywhere in the result |
| LintFixerProperties.SpaceBeforeFilterSettled | fix_all_lint_issues.py:155 | for such a name, no `\|name` that is not followed by a letter or `_` is left anywhere in the result |
| LintFixerProperties.FiltersPlain | fix_all_lint_issues.py:148-150 | every name in the filter list is non-empty and holds neither `\|` nor a space |
| LintFixer.FixJinja2Spacing | fix_all_lint_issues.py:140-157 | the method computes `Jinja2Spacing` |
| LintFixerProperties.SpaceAfterOpenOnlySpaces | fix_all_lint_issues.py:143 | the substitution after `{{` only inserts spaces |
| LintFixerProperties.SpaceBeforeCloseOnlySpaces | fix_all_lint_issues.py:145 | the substitution before `}}` only inserts spaces |
| LintFixerProperties.SpaceBeforeCallOnlySpaces | fix_all_lint_issues.py:154 | the `|filter(` substitution only inserts spaces |
| LintFixerProperties.SpaceBeforeFilterOnlySpaces | fix_all_lint_issues.py:155 | the `|filter` substitution only inserts spaces |
| LintFixerProperties.SpaceFiltersOnlySpaces | fix_all_lint_issues.py:152-155 | the filter loop only inserts spaces |
| LintFixerProperties.Jinja2SpacingOnlySpaces | fix_all_lint_issues.py:140-157 | `fix_jinja2_spacing` changes nothing but spaces: removing every space from its result gives the input with every space removed |
| LintFixerProperties.SpaceAfterOpenIdempotent | fix_all_lint_issues.py:143 | applying the `{{` substitution twice is applying it once |
| LintFixerProperties.SpaceBeforeCloseIdempotent | fix_all_lint_issues.py:145 | applying the `}}` substitution twice is applying it once |
| LintFixerProperties.SpaceAfterOpenFixed | fix_all_lint_issues.py:143 | text in which no `{{` is directly followed by a character other than `{` and space comes out unchanged |
| LintFixerProperties.SpaceBeforeCloseFixed | fix_all_lint_issues.py:145 | text in which no `}}` directly follows a character other than `}` and space comes out unchanged |

## Left out

- File access is not modelled. That covers `process_file` reading and writing the file, its
  `main` and argument loop, the file I/O and globbing of `fix_all_yaml.py`'s `main`, and its
  `os.system` call to `ansible-lint`. The model works on the list of lines, or on the text,
  the scripts hold in memory.
- Exceptions are not modelled: `process_file` ignores unreadable files, and `main` catches
  errors per file.
- `AnsibleLintFixer.fix_block_register` is out, because it is one multi-line regular
  expression with lazy quantifiers. Modelling it faithfully needs a backtracking regex engine.
- `AnsibleLintFixer.fix_yaml_file` and `fix_all_playbooks` are out, because they parse files
  with PyYAML and dump them back.
- The `issues_fixed` list is out; it only collects messages.
- `fix_task_key_order` on dicts with non-string keys is not modelled. Keys are strings, and a
  non-dict node is an opaque value.
- The dead variables `in_block` and `register_line` of `fix_all_yaml.py` are not modelled.
  Nothing reads them.
- The two branches at fix_all_yaml.py:130-134 are the same line twice, and are modelled as
  one.
- LintFixerProperties.PipefailLeavesNoBarePipe: holds only when no piped one-liner's command
  is itself a `shell:` line. For a command such as `shell: shell: a | b`, the rewritten third
  line is again a piped one-liner, so a second run rewrites it again.
- LintFixerProperties.ShellPipefailLeavesNoBarePipe: carries the same premise over the whole
  text: no piped one-liner's command may itself start with a `shell:` key. On
  `shell: shell: a | b` the fixed text still holds the piped one-liner `  shell: a | b`.
- The compliance validators under ansible/roles and the settings module are not part of this
  model.
