/** The four text- and mapping-level fixers of the `AnsibleLintFixer` class in
    fix_all_lint_issues.py: task key order, `ignore_errors`, `shell` pipefail and
    Jinja2 spacing. Each fixer that loops is a method proved equal to a function;
    the properties of those functions are in `LintFixerProperties`. */
module LintFixer {
  import opened Text

  // ================================================================ fix_task_key_order

  /** The priority list of `fix_task_key_order`. */
  const KeyOrder: seq<string> := ["name", "when", "tags", "block", "rescue", "always",
    "become", "become_user", "become_method", "vars", "register",
    "changed_when", "failed_when", "notify", "loop", "with_items",
    "with_dict", "with_fileglob", "with_together", "until",
    "retries", "delay", "delegate_to", "run_once", "ignore_errors"]

  predicate Distinct(s: seq<string>) {
    forall i, j :: 0 <= i < j < |s| ==> s[i] != s[j]
  }

  /** A node handed to `fix_task_key_order`: a Python dict (its keys in insertion order
      and the value of each) or any other node, whose payload is kept as it is. */
  datatype Task<V> = Mapping(keys: seq<string>, values: map<string, V>) | Other(node: V)

  /** A dict holds each key once, and its key order lists exactly the keys it maps. */
  ghost predicate WellFormed<V>(t: Task<V>) {
    t.Mapping? ==> Distinct(t.keys) && (forall k :: k in t.values <==> k in t.keys)
  }

  /** Tells the keys of `KeyOrder` apart by first character, last character and length. */
  ghost function KeySignature(k: string): nat {
    if k == [] then 25
    else if k[0] == 'n' && k[|k| - 1] == 'e' && |k| == 4 then 0
    else if k[0] == 'w' && k[|k| - 1] == 'n' && |k| == 4 then 1
    else if k[0] == 't' && k[|k| - 1] == 's' && |k| == 4 then 2
    else if k[0] == 'b' && k[|k| - 1] == 'k' && |k| == 5 then 3
    else if k[0] == 'r' && k[|k| - 1] == 'e' && |k| == 6 then 4
    else if k[0] == 'a' && k[|k| - 1] == 's' && |k| == 6 then 5
    else if k[0] == 'b' && k[|k| - 1] == 'e' && |k| == 6 then 6
    else if k[0] == 'b' && k[|k| - 1] == 'r' && |k| == 11 then 7
    else if k[0] == 'b' && k[|k| - 1] == 'd' && |k| == 13 then 8
    else if k[0] == 'v' && k[|k| - 1] == 's' && |k| == 4 then 9
    else if k[0] == 'r' && k[|k| - 1] == 'r' && |k| == 8 then 10
    else if k[0] == 'c' && k[|k| - 1] == 'n' && |k| == 12 then 11
    else if k[0] == 'f' && k[|k| - 1] == 'n' && |k| == 11 then 12
    else if k[0] == 'n' && k[|k| - 1] == 'y' && |k| == 6 then 13
    else if k[0] == 'l' && k[|k| - 1] == 'p' && |k| == 4 then 14
    else if k[0] == 'w' && k[|k| - 1] == 's' && |k| == 10 then 15
    else if k[0] == 'w' && k[|k| - 1] == 't' && |k| == 9 then 16
    else if k[0] == 'w' && k[|k| - 1] == 'b' && |k| == 13 then 17
    else if k[0] == 'w' && k[|k| - 1] == 'r' && |k| == 13 then 18
    else if k[0] == 'u' && k[|k| - 1] == 'l' && |k| == 5 then 19
    else if k[0] == 'r' && k[|k| - 1] == 's' && |k| == 7 then 20
    else if k[0] == 'd' && k[|k| - 1] == 'y' && |k| == 5 then 21
    else if k[0] == 'd' && k[|k| - 1] == 'o' && |k| == 11 then 22
    else if k[0] == 'r' && k[|k| - 1] == 'e' && |k| == 8 then 23
    else if k[0] == 'i' && k[|k| - 1] == 's' && |k| == 13 then 24
    else 25
  }

  lemma KeyOrderDistinct()
    ensures Distinct(KeyOrder)
  {
    assert forall i :: 0 <= i < |KeyOrder| ==> KeySignature(KeyOrder[i]) == i;
  }

  /** No key of the priority list is a dotted module name. */
  lemma KeyOrderHasNoDot(k: string)
    requires k in KeyOrder
    ensures !Contains(k, ".")
  {
    assert forall i :: 0 <= i < |KeyOrder| ==> '.' !in KeyOrder[i];
    if Contains(k, ".") {
      ContainsFirst(k, ".");
    }
  }

  /** The position of `k` in `s`: its first occurrence. */
  function IndexOf(s: seq<string>, k: string): (i: nat)
    requires k in s
    ensures i < |s| && s[i] == k && k !in s[..i]
  {
    if s[0] == k then 0
    else
      var i := IndexOf(s[1..], k);
      assert s[..i + 1] == [s[0]] + s[1..][..i];
      i + 1
  }

  /** Where a key belongs: its place in the priority list `order`, or after all of them. */
  function Priority(order: seq<string>, k: string): nat {
    if k in order then IndexOf(order, k) else |order|
  }

  /** What `fix_task_key_order` relies on in its priority list: no key twice, no dotted key. */
  predicate PriorityList(order: seq<string>) {
    Distinct(order) && forall k :: k in order ==> !Contains(k, ".")
  }

  lemma KeyOrderIsPriorityList()
    ensures PriorityList(KeyOrder)
  {
    KeyOrderDistinct();
    forall k | k in KeyOrder
      ensures !Contains(k, ".")
    {
      KeyOrderHasNoDot(k);
    }
  }

  /** The keys of `order` that `keys` holds, in the order of `order` (the first loop). */
  function Listed(order: seq<string>, keys: seq<string>): (r: seq<string>)
    ensures forall k {:trigger k in r} :: k in r <==> k in order && k in keys
  {
    if order == [] then []
    else
      var last := order[|order| - 1];
      assert order == order[..|order| - 1] + [last];
      Listed(order[..|order| - 1], keys) + (if last in keys then [last] else [])
  }

  /** The keys of `keys` that `order` does not list, in their own order (the second loop). */
  function Unlisted(order: seq<string>, keys: seq<string>): (r: seq<string>)
    ensures forall k {:trigger k in r} :: k in r <==> k in keys && k !in order
  {
    if keys == [] then []
    else
      var last := keys[|keys| - 1];
      assert keys == keys[..|keys| - 1] + [last];
      Unlisted(order, keys[..|keys| - 1]) + (if last !in order then [last] else [])
  }

  /** The key order `fix_task_key_order` produces with priority list `order`. */
  function ReorderKeys(order: seq<string>, keys: seq<string>): seq<string> {
    Listed(order, keys) + Unlisted(order, keys)
  }

  /** `fix_task_key_order` as a function: a dict gets its keys reordered and keeps every
      value; anything else comes back as it is. */
  function TaskKeyOrder<V>(t: Task<V>): (r: Task<V>)
    ensures !t.Mapping? ==> r == t
    ensures t.Mapping? ==> r.Mapping? && r.values == t.values
  {
    match t
    case Other(_) => t
    case Mapping(keys, values) => Mapping(ReorderKeys(KeyOrder, keys), values)
  }

  /** `ordered` maps exactly the keys it lists, each to the task's value. */
  ghost predicate CopiedFrom<V>(orderedKeys: seq<string>, orderedValues: map<string, V>, values: map<string, V>) {
    (forall k :: k in orderedValues <==> k in orderedKeys)
    && (forall k :: k in orderedValues ==> k in values && orderedValues[k] == values[k])
  }

  /** `AnsibleLintFixer.fix_task_key_order`. */
  method FixTaskKeyOrder<V>(task: Task<V>) returns (result: Task<V>)
    requires WellFormed(task)
    ensures result == TaskKeyOrder(task)
  {
    if !task.Mapping? {
      return task;
    }
    KeyOrderIsPriorityList();
    result := OrderKeys(KeyOrder, task.keys, task.values);
  }

  /** The three loops of `fix_task_key_order` filling an `OrderedDict`, with priority list
      `order`; the dict is written as its key list and its value map. */
  method OrderKeys<V>(order: seq<string>, keys: seq<string>, values: map<string, V>) returns (result: Task<V>)
    requires PriorityList(order)
    requires WellFormed(Mapping(keys, values))
    ensures result == Mapping(ReorderKeys(order, keys), values)
  {
    var orderedKeys, orderedValues := AddListedKeys(order, keys, values);
    orderedKeys, orderedValues := AddUnlistedKeys(order, keys, values, orderedKeys, orderedValues);
    // the third loop adds any key still missing; there is none, since the first two
    // loops added every key of the task
    for n := 0 to |keys|
      invariant orderedKeys == ReorderKeys(order, keys)
      invariant CopiedFrom(orderedKeys, orderedValues, values)
    {
      var key := keys[n];
      if key !in orderedValues {
        assert false;
      }
    }
    assert orderedValues == values;
    result := Mapping(orderedKeys, orderedValues);
  }

  /** The first loop: the keys of the priority list the task holds, in its order. */
  method AddListedKeys<V>(order: seq<string>, keys: seq<string>, values: map<string, V>)
    returns (orderedKeys: seq<string>, orderedValues: map<string, V>)
    requires PriorityList(order)
    requires WellFormed(Mapping(keys, values))
    ensures orderedKeys == Listed(order, keys)
    ensures CopiedFrom(orderedKeys, orderedValues, values)
  {
    orderedKeys, orderedValues := [], map[];
    for n := 0 to |order|
      invariant orderedKeys == Listed(order[..n], keys)
      invariant CopiedFrom(orderedKeys, orderedValues, values)
    {
      var key := order[n];
      assert order[..n + 1][..n] == order[..n];
      if key in values {
        assert key !in order[..n];
        if key !in orderedValues {
          orderedKeys := orderedKeys + [key];
        }
        orderedValues := orderedValues[key := values[key]];
      }
    }
    assert order[..|order|] == order;
  }

  /** The second loop: the dotted and the unlisted keys, in the task's order. */
  method AddUnlistedKeys<V>(order: seq<string>, keys: seq<string>, values: map<string, V>,
                            orderedKeys0: seq<string>, orderedValues0: map<string, V>)
    returns (orderedKeys: seq<string>, orderedValues: map<string, V>)
    requires PriorityList(order)
    requires WellFormed(Mapping(keys, values))
    requires orderedKeys0 == Listed(order, keys)
    requires CopiedFrom(orderedKeys0, orderedValues0, values)
    ensures orderedKeys == ReorderKeys(order, keys)
    ensures CopiedFrom(orderedKeys, orderedValues, values)
  {
    orderedKeys, orderedValues := orderedKeys0, orderedValues0;
    for n := 0 to |keys|
      invariant orderedKeys == Listed(order, keys) + Unlisted(order, keys[..n])
      invariant CopiedFrom(orderedKeys, orderedValues, values)
    {
      var key := keys[n];
      UnlistedStep(order, keys, n);
      ghost var listed, before := Listed(order, keys), Unlisted(order, keys[..n]);
      if Contains(key, ".") || key !in order {
        assert key !in order;
        DistinctNotBefore(keys, n);
        assert key !in orderedKeys;
        CopiedFromAdd(orderedKeys, orderedValues, values, key);
        AppendAssoc(listed, before, [key]);
        if key !in orderedValues {
          orderedKeys := orderedKeys + [key];
          orderedValues := orderedValues[key := values[key]];
        }
      } else {
        assert before + [] == before;
      }
    }
    assert keys[..|keys|] == keys;
  }

  /** What one more key adds to `Unlisted`. */
  lemma UnlistedStep(order: seq<string>, keys: seq<string>, n: nat)
    requires n < |keys|
    ensures Unlisted(order, keys[..n + 1])
      == Unlisted(order, keys[..n]) + (if keys[n] !in order then [keys[n]] else [])
  {
    assert keys[..n + 1][..n] == keys[..n];
  }

  /** In a list without repeats, an element does not occur before its own position. */
  lemma DistinctNotBefore(keys: seq<string>, n: nat)
    requires Distinct(keys) && n < |keys|
    ensures keys[n] !in keys[..n]
  {
  }

  /** Copying one more key of the task keeps the dict a copy of the task's values. */
  lemma CopiedFromAdd<V>(orderedKeys: seq<string>, orderedValues: map<string, V>, values: map<string, V>, key: string)
    requires CopiedFrom(orderedKeys, orderedValues, values) && key in values
    requires key !in orderedKeys
    ensures key !in orderedValues
    ensures CopiedFrom(orderedKeys + [key], orderedValues[key := values[key]], values)
  {
  }

  // ================================================================ fix_ignore_errors

  /** `re.match(r'(\s*)', line).group(1)`: the run of whitespace the line starts with. */
  function LeadingSpace(line: string): (r: string)
    ensures |r| == Indent(line) && AllSpace(r) && StartsWith(line, r)
  {
    IndentSpec(line);
    line[..Indent(line)]
  }

  /** `re.match(r'\s*ignore_errors:\s*(yes|true)', line)`: after the leading whitespace
      comes `ignore_errors:`, then optional whitespace, then `yes` or `true`; anything
      may follow. */
  predicate IgnoresErrors(line: string) {
    var rest := LStrip(line);
    StartsWith(rest, "ignore_errors:")
    && (StartsWith(LStrip(rest[14..]), "yes") || StartsWith(LStrip(rest[14..]), "true"))
  }

  /** What `fix_ignore_errors` makes of one line. */
  function IgnoreErrorsLine(line: string): string {
    if IgnoresErrors(line) then LeadingSpace(line) + "failed_when: false" else line
  }

  function IgnoreErrorsLines(lines: seq<string>): (r: seq<string>)
    ensures |r| == |lines|
    ensures forall k :: 0 <= k < |lines| ==> r[k] == IgnoreErrorsLine(lines[k])
  {
    if lines == [] then []
    else IgnoreErrorsLines(lines[..|lines| - 1]) + [IgnoreErrorsLine(lines[|lines| - 1])]
  }

  /** `fix_ignore_errors` as a function of the file's text. */
  function IgnoreErrors(content: string): string {
    Join(IgnoreErrorsLines(Split(content, '\n')), '\n')
  }

  /** `AnsibleLintFixer.fix_ignore_errors`. */
  method FixIgnoreErrors(content: string) returns (fixed: string)
    ensures fixed == IgnoreErrors(content)
  {
    var lines := Split(content, '\n');
    var fixedLines: seq<string> := [];
    for i := 0 to |lines|
      invariant fixedLines == IgnoreErrorsLines(lines[..i])
    {
      var line := lines[i];
      assert lines[..i + 1][..i] == lines[..i];
      if IgnoresErrors(line) {
        var indent := LeadingSpace(line);
        fixedLines := fixedLines + [indent + "failed_when: false"];
      } else {
        fixedLines := fixedLines + [line];
      }
    }
    assert lines[..|lines|] == lines;
    fixed := Join(fixedLines, '\n');
  }

  // ================================================================ fix_shell_pipefail

  /** `re.match(r'\s*(ansible\.builtin\.)?shell:\s*', line)`: after the leading whitespace
      the line starts with `shell:` or `ansible.builtin.shell:`. */
  predicate IsShellLine(line: string) {
    StartsWith(LStrip(line), "shell:") || StartsWith(LStrip(line), "ansible.builtin.shell:")
  }

  /** Group 2 of the pattern at fix_all_lint_issues.py:112, or `''` when it is absent. */
  function ShellPrefix(line: string): string {
    if StartsWith(LStrip(line), "ansible.builtin.shell:") then "ansible.builtin." else ""
  }

  /** The text after the `shell:` key. */
  function AfterShellKey(line: string): string
    requires IsShellLine(line)
  {
    LStrip(line)[|ShellPrefix(line)| + 6..]
  }

  /** `re.match(r'(\s*)(ansible\.builtin\.)?shell:\s*(.+)', line)` on a line without a
      newline: it succeeds when some text follows the key. */
  predicate HasShellCommand(line: string)
    requires IsShellLine(line)
  {
    AfterShellKey(line) != []
  }

  /** `shell_match.group(3).strip()`: the command itself. */
  function ShellCommand(line: string): string
    requires IsShellLine(line)
  {
    Strip(AfterShellKey(line))
  }

  /** The trigger of the single-line rewrite (fix_all_lint_issues.py:102-106). */
  predicate PipedOneLiner(line: string) {
    IsShellLine(line) && '|' in line && !Contains(line, "pipefail") && !EndsWith(RStrip(line), "|")
  }

  /** The three lines a piped one-liner becomes. */
  function OneLinerRewrite(line: string): seq<string>
    requires IsShellLine(line)
  {
    var indent := LeadingSpace(line);
    [indent + ShellPrefix(line) + "shell: |", indent + "  set -o pipefail", indent + "  " + ShellCommand(line)]
  }

  /** The branch at fix_all_lint_issues.py:122: a shell line ending in `|` that the test
      at :104 let through. */
  predicate BlockScalarStart(line: string) {
    IsShellLine(line) && !('|' in line && !Contains(line, "pipefail")) && EndsWith(RStrip(line), "|")
  }

  /** The line inserted after a block-scalar start, at the indent of the next line. */
  function PipefailLine(next: string): string {
    LeadingSpace(next) + "set -o pipefail"
  }

  /** What the `while` loop of `fix_shell_pipefail` emits for the lines from here on. */
  function Pipefail(lines: seq<string>): (r: seq<string>)
    ensures |r| >= |lines|
  {
    if lines == [] then []
    else
      var line := lines[0];
      if PipedOneLiner(line) && HasShellCommand(line) then OneLinerRewrite(line) + Pipefail(lines[1..])
      else if BlockScalarStart(line) then
        [line] + (if |lines| > 1 && !Contains(lines[1], "pipefail") then [PipefailLine(lines[1])] else [])
        + Pipefail(lines[1..])
      else [line] + Pipefail(lines[1..])
  }

  /** `fix_shell_pipefail` as a function of the file's text. */
  function ShellPipefail(content: string): string {
    Join(Pipefail(Split(content, '\n')), '\n')
  }

  /** A step of the loop over a line that `Pipefail` rewrites into three. */
  lemma PipefailRewriteStep(lines: seq<string>, i: nat, out: seq<string>, goal: seq<string>)
    requires i < |lines| && PipedOneLiner(lines[i]) && HasShellCommand(lines[i])
    requires out + Pipefail(lines[i..]) == goal
    ensures (out + OneLinerRewrite(lines[i])) + Pipefail(lines[i + 1..]) == goal
  {
    assert lines[i..][0] == lines[i] && lines[i..][1..] == lines[i + 1..];
    assert Pipefail(lines[i..]) == OneLinerRewrite(lines[i]) + Pipefail(lines[i + 1..]);
    AppendAssoc(out, OneLinerRewrite(lines[i]), Pipefail(lines[i + 1..]));
  }

  /** A step of the loop over a block-scalar start, together with the line after it. */
  lemma PipefailBlockStep(lines: seq<string>, i: nat, out: seq<string>, goal: seq<string>)
    requires i < |lines| && !(PipedOneLiner(lines[i]) && HasShellCommand(lines[i])) && BlockScalarStart(lines[i])
    requires out + Pipefail(lines[i..]) == goal
    ensures var chunk := [lines[i]]
              + (if i + 1 < |lines| && !Contains(lines[i + 1], "pipefail") then [PipefailLine(lines[i + 1])] else []);
            (out + chunk) + Pipefail(lines[i + 1..]) == goal
  {
    ghost var chunk := [lines[i]]
      + (if i + 1 < |lines| && !Contains(lines[i + 1], "pipefail") then [PipefailLine(lines[i + 1])] else []);
    assert lines[i..][0] == lines[i] && lines[i..][1..] == lines[i + 1..];
    if i + 1 < |lines| {
      assert lines[i..][1] == lines[i + 1];
    }
    assert Pipefail(lines[i..]) == chunk + Pipefail(lines[i + 1..]);
    AppendAssoc(out, chunk, Pipefail(lines[i + 1..]));
  }

  /** A step of the loop over a line that `Pipefail` copies. */
  lemma PipefailKeepStep(lines: seq<string>, i: nat, out: seq<string>, goal: seq<string>)
    requires i < |lines| && !(PipedOneLiner(lines[i]) && HasShellCommand(lines[i])) && !BlockScalarStart(lines[i])
    requires out + Pipefail(lines[i..]) == goal
    ensures (out + [lines[i]]) + Pipefail(lines[i + 1..]) == goal
  {
    assert lines[i..][0] == lines[i] && lines[i..][1..] == lines[i + 1..];
    assert Pipefail(lines[i..]) == [lines[i]] + Pipefail(lines[i + 1..]);
    AppendAssoc(out, [lines[i]], Pipefail(lines[i + 1..]));
  }

  /** `AnsibleLintFixer.fix_shell_pipefail`. */
  method FixShellPipefail(content: string) returns (fixed: string)
    ensures fixed == ShellPipefail(content)
  {
    var lines := Split(content, '\n');
    ghost var goal := Pipefail(lines);
    var fixedLines: seq<string> := [];
    var i := 0;
    assert lines[0..] == lines;
    while i < |lines|
      invariant 0 <= i <= |lines|
      invariant fixedLines + Pipefail(lines[i..]) == goal
    {
      fixedLines := PipefailBody(lines, i, fixedLines, goal);
      i := i + 1;
    }
    assert lines[|lines|..] == [];
    assert fixedLines == Pipefail(lines);
    fixed := Join(fixedLines, '\n');
  }

  /** The body of the loop of `fix_shell_pipefail` for line `i`: the lines it appends.
      Every branch moves on by exactly one line; a block-scalar start only looks at the
      line after it. */
  method PipefailBody(lines: seq<string>, i: nat, fixedLines: seq<string>, ghost goal: seq<string>)
      returns (out: seq<string>)
    requires i < |lines| && fixedLines + Pipefail(lines[i..]) == goal
    ensures out + Pipefail(lines[i + 1..]) == goal
  {
    var line := lines[i];
    if IsShellLine(line) {
      if '|' in line && !Contains(line, "pipefail") {
        if !EndsWith(RStrip(line), "|") {
          var indent := LeadingSpace(line);
          if AfterShellKey(line) != [] {
            PipefailRewriteStep(lines, i, fixedLines, goal);
            var prefix := ShellPrefix(line);
            var command := Strip(AfterShellKey(line));
            out := fixedLines + [indent + prefix + "shell: |"];
            out := out + [indent + "  set -o pipefail"];
            out := out + [indent + "  " + command];
            assert out == fixedLines + OneLinerRewrite(line);
            return;
          }
        }
      } else if EndsWith(RStrip(line), "|") {
        PipefailBlockStep(lines, i, fixedLines, goal);
        out := fixedLines + [line];
        if i + 1 < |lines| && !Contains(lines[i + 1], "pipefail") {
          var indent := LeadingSpace(lines[i + 1]);
          out := out + [indent + "set -o pipefail"];
          assert out == fixedLines + ([line] + [PipefailLine(lines[i + 1])]);
        } else {
          assert out == fixedLines + ([line] + []);
        }
        return;
      }
    }
    PipefailKeepStep(lines, i, fixedLines, goal);
    out := fixedLines + [line];
  }

  // ================================================================ fix_jinja2_spacing

  /** `s` starts with a match of `\{\{([^{ ])`: `{{` and a character other than `{` and space. */
  predicate TightOpen(s: string) {
    |s| >= 3 && s[0] == '{' && s[1] == '{' && s[2] != '{' && s[2] != ' '
  }

  /** `re.sub(r'\{\{([^{ ])', r'{{ \1', s)`: a space after every `{{` that is directly
      followed by a character other than `{` and space, scanning left to right. */
  function SpaceAfterOpen(s: string): (r: string)
    ensures s != [] ==> r != [] && r[0] == s[0]
    decreases |s|
  {
    if TightOpen(s) then
      "{{ " + [s[2]] + SpaceAfterOpen(s[3..])
    else if s == [] then []
    else [s[0]] + SpaceAfterOpen(s[1..])
  }

  /** `s` starts with a match of `([^} ])\}\}`: a character other than `}` and space, then `}}`. */
  predicate TightClose(s: string) {
    |s| >= 3 && s[0] != '}' && s[0] != ' ' && s[1] == '}' && s[2] == '}'
  }

  /** `re.sub(r'([^} ])\}\}', r'\1 }}', s)`: a space before every `}}` that directly follows
      a character other than `}` and space, scanning left to right. */
  function SpaceBeforeClose(s: string): (r: string)
    ensures s != [] ==> r != [] && r[0] == s[0]
    decreases |s|
  {
    if TightClose(s) then
      [s[0]] + " }}" + SpaceBeforeClose(s[3..])
    else if s == [] then []
    else [s[0]] + SpaceBeforeClose(s[1..])
  }

  /** The filters whose spacing `fix_jinja2_spacing` fixes, in the order it treats them. */
  const Filters: seq<string> := ["combine", "default", "length", "join", "list", "dict",
    "selectattr", "rejectattr", "select", "reject", "map",
    "unique", "sort", "reverse", "first", "last", "random"]

  /** `[a-zA-Z_]`. */
  predicate IsNameChar(c: char) {
    'a' <= c <= 'z' || 'A' <= c <= 'Z' || c == '_'
  }

  /** `s` starts with a match of `\|f\(`. */
  predicate TightCall(s: string, f: string) {
    StartsWith(s, "|" + f + "(")
  }

  /** `re.sub('\\|' + f + '\\(', ' | ' + f + '(', s)`. */
  function SpaceBeforeCall(s: string, f: string): string
    decreases |s|
  {
    if TightCall(s, f) then " | " + f + "(" + SpaceBeforeCall(s[|f| + 2..], f)
    else if s == [] then []
    else [s[0]] + SpaceBeforeCall(s[1..], f)
  }

  /** `s` starts with a match of `\|f(?![a-zA-Z_])`: `|f` not running on into a longer name. */
  predicate TightFilter(s: string, f: string) {
    StartsWith(s, "|" + f) && (|s| == |f| + 1 || !IsNameChar(s[|f| + 1]))
  }

  /** `re.sub('\\|' + f + '(?![a-zA-Z_])', ' | ' + f, s)`: the filter name must not run on
      into a longer name. */
  function SpaceBeforeFilter(s: string, f: string): string
    decreases |s|
  {
    if TightFilter(s, f) then
      " | " + f + SpaceBeforeFilter(s[|f| + 1..], f)
    else if s == [] then []
    else [s[0]] + SpaceBeforeFilter(s[1..], f)
  }

  /** The two substitutions of the filter loop, for each filter of `fs` in turn. */
  function SpaceFilters(s: string, fs: seq<string>): string
    decreases |fs|
  {
    if fs == [] then s else SpaceFilters(SpaceBeforeFilter(SpaceBeforeCall(s, fs[0]), fs[0]), fs[1..])
  }

  /** `fix_jinja2_spacing` as a function. */
  function Jinja2Spacing(content: string): string {
    SpaceFilters(SpaceBeforeClose(SpaceAfterOpen(content)), Filters)
  }

  /** `AnsibleLintFixer.fix_jinja2_spacing`. */
  method FixJinja2Spacing(content0: string) returns (content: string)
    ensures content == Jinja2Spacing(content0)
  {
    content := SpaceAfterOpen(content0);
    content := SpaceBeforeClose(content);
    assert Filters[0..] == Filters;
    for n := 0 to |Filters|
      invariant SpaceFilters(content, Filters[n..]) == Jinja2Spacing(content0)
    {
      var filterName := Filters[n];
      SpaceFiltersStep(content, Filters, n);
      content := SpaceBeforeCall(content, filterName);
      content := SpaceBeforeFilter(content, filterName);
    }
  }

  lemma SpaceFiltersStep(s: string, fs: seq<string>, n: nat)
    requires n < |fs|
    ensures SpaceFilters(s, fs[n..]) == SpaceFilters(SpaceBeforeFilter(SpaceBeforeCall(s, fs[n]), fs[n]), fs[n + 1..])
  {
    assert fs[n..][0] == fs[n] && fs[n..][1..] == fs[n + 1..];
  }
}

/** What the four fixers of fix_all_lint_issues.py guarantee. */
module LintFixerProperties {
  import opened Text
  import opened LintFixer

  // ================================================================ fix_task_key_order

  lemma DistinctPrefix(s: seq<string>, n: nat)
    requires Distinct(s) && n <= |s|
    ensures Distinct(s[..n])
    ensures forall i :: n <= i < |s| ==> s[i] !in s[..n]
  {
    var p := s[..n];
    forall i, j | 0 <= i < j < |p|
      ensures p[i] != p[j]
    {
      assert p[i] == s[i] && p[j] == s[j];
    }
  }

  /** Appending a new element keeps a sequence free of repetitions. */
  lemma DistinctSnoc(s: seq<string>, x: string)
    requires Distinct(s) && x !in s
    ensures Distinct(s + [x])
  {
    var r := s + [x];
    forall i, j | 0 <= i < j < |r|
      ensures r[i] != r[j]
    {
      if j == |s| {
        assert r[i] == s[i];
      } else {
        assert r[i] == s[i] && r[j] == s[j];
      }
    }
  }

  lemma {:induction false} ListedDistinct(order: seq<string>, keys: seq<string>)
    requires Distinct(order)
    ensures Distinct(Listed(order, keys))
  {
    if order != [] {
      var init := order[..|order| - 1];
      var last := order[|order| - 1];
      DistinctPrefix(order, |order| - 1);
      ListedDistinct(init, keys);
      if last in keys {
        DistinctSnoc(Listed(init, keys), last);
      } else {
        assert Listed(order, keys) == Listed(init, keys);
      }
    }
  }

  lemma {:induction false} UnlistedDistinct(order: seq<string>, keys: seq<string>)
    requires Distinct(keys)
    ensures Distinct(Unlisted(order, keys))
  {
    if keys != [] {
      var init := keys[..|keys| - 1];
      var last := keys[|keys| - 1];
      DistinctPrefix(keys, |keys| - 1);
      UnlistedDistinct(order, init);
      if last !in order {
        DistinctSnoc(Unlisted(order, init), last);
      } else {
        assert Unlisted(order, keys) == Unlisted(order, init);
      }
    }
  }

  /** In a sequence without repetitions every member occurs exactly once. */
  lemma {:induction false} DistinctMultiset(s: seq<string>)
    requires Distinct(s)
    ensures forall x :: multiset(s)[x] == if x in s then 1 else 0
  {
    if s != [] {
      var init := s[..|s| - 1];
      DistinctMultiset(init);
      assert s == init + [s[|s| - 1]];
      assert s[|s| - 1] !in init;
    }
  }

  /** The new key order is a permutation of the old one (fix_all_lint_issues.py:38-56). */
  lemma ReorderKeysPermutes(order: seq<string>, keys: seq<string>)
    requires Distinct(order) && Distinct(keys)
    ensures Distinct(ReorderKeys(order, keys))
    ensures multiset(ReorderKeys(order, keys)) == multiset(keys)
  {
    var listed, unlisted := Listed(order, keys), Unlisted(order, keys);
    ListedDistinct(order, keys);
    UnlistedDistinct(order, keys);
    var r := listed + unlisted;
    forall i, j | 0 <= i < j < |r|
      ensures r[i] != r[j]
    {
      if i < |listed| <= j {
        assert r[i] in listed && r[j] in unlisted;
      }
    }
    DistinctMultiset(r);
    DistinctMultiset(keys);
    assert forall x :: x in r <==> x in keys;
    assert forall x :: multiset(r)[x] == multiset(keys)[x];
  }

  /** The keys `Listed(order[..n], keys)` picks all come from `order[..n]`, in the order
      of `order`. */
  lemma {:induction false} ListedSorted(order: seq<string>, keys: seq<string>, n: nat)
    requires Distinct(order) && n <= |order|
    ensures forall i :: 0 <= i < |Listed(order[..n], keys)| ==> Priority(order, Listed(order[..n], keys)[i]) < n
    ensures forall i, j :: 0 <= i < j < |Listed(order[..n], keys)| ==>
      Priority(order, Listed(order[..n], keys)[i]) < Priority(order, Listed(order[..n], keys)[j])
  {
    if n > 0 {
      ListedSorted(order, keys, n - 1);
      assert order[..n][..n - 1] == order[..n - 1];
      var last := order[n - 1];
      IndexOfDistinct(order, n - 1);
      assert Priority(order, last) == n - 1;
    }
  }

  /** In a list without repetitions a member's first occurrence is its only one. */
  lemma IndexOfDistinct(s: seq<string>, i: nat)
    requires Distinct(s) && i < |s|
    ensures IndexOf(s, s[i]) == i
  {
  }

  /** Listed keys come first, in the priority list's order; every other key comes after
      them (fix_all_lint_issues.py:29-54). */
  lemma ReorderKeysSorted(order: seq<string>, keys: seq<string>)
    requires Distinct(order)
    ensures forall i, j :: 0 <= i < j < |ReorderKeys(order, keys)| ==>
      Priority(order, ReorderKeys(order, keys)[i]) <= Priority(order, ReorderKeys(order, keys)[j])
  {
    assert order[..|order|] == order;
    ListedSorted(order, keys, |order|);
    var listed, unlisted := Listed(order, keys), Unlisted(order, keys);
    var r := listed + unlisted;
    forall i, j | 0 <= i < j < |r|
      ensures Priority(order, r[i]) <= Priority(order, r[j])
    {
      if j >= |listed| {
        assert r[j] in unlisted;
      }
    }
  }

  lemma {:induction false} UnlistedAppend(order: seq<string>, a: seq<string>, b: seq<string>)
    ensures Unlisted(order, a + b) == Unlisted(order, a) + Unlisted(order, b)
    decreases |b|
  {
    if b == [] {
      assert a + b == a;
    } else {
      var init := b[..|b| - 1];
      UnlistedAppend(order, a, init);
      assert (a + b)[..|a + b| - 1] == a + init;
      assert (a + b)[|a + b| - 1] == b[|b| - 1];
    }
  }

  lemma {:induction false} UnlistedOfListed(order: seq<string>, a: seq<string>)
    requires forall k :: k in a ==> k in order
    ensures Unlisted(order, a) == []
  {
    if a != [] {
      UnlistedOfListed(order, a[..|a| - 1]);
      assert a[|a| - 1] in a;
    }
  }

  lemma {:induction false} UnlistedIdempotent(order: seq<string>, a: seq<string>)
    ensures Unlisted(order, Unlisted(order, a)) == Unlisted(order, a)
  {
    if a != [] {
      var init := a[..|a| - 1];
      var last := a[|a| - 1];
      UnlistedIdempotent(order, init);
      if last !in order {
        UnlistedAppend(order, Unlisted(order, init), [last]);
        assert [last][..0] == [];
      } else {
        assert Unlisted(order, a) == Unlisted(order, init);
      }
    }
  }

  /** Keys outside the priority list keep their relative order (fix_all_lint_issues.py:46-49). */
  lemma ReorderKeysStable(order: seq<string>, keys: seq<string>)
    ensures Unlisted(order, ReorderKeys(order, keys)) == Unlisted(order, keys)
  {
    UnlistedAppend(order, Listed(order, keys), Unlisted(order, keys));
    UnlistedOfListed(order, Listed(order, keys));
    UnlistedIdempotent(order, keys);
  }

  /** `Listed` depends only on which keys are present. */
  lemma {:induction false} ListedSameMembers(order: seq<string>, a: seq<string>, b: seq<string>)
    requires forall k :: k in a <==> k in b
    ensures Listed(order, a) == Listed(order, b)
  {
    if order != [] {
      ListedSameMembers(order[..|order| - 1], a, b);
    }
  }

  /** Reordering twice is reordering once. */
  lemma ReorderKeysIdempotent(order: seq<string>, keys: seq<string>)
    ensures ReorderKeys(order, ReorderKeys(order, keys)) == ReorderKeys(order, keys)
  {
    var r := ReorderKeys(order, keys);
    assert forall k :: k in r <==> k in keys;
    ListedSameMembers(order, r, keys);
    ReorderKeysStable(order, keys);
  }

  /** `fix_task_key_order` keeps a dict a dict with the same entries, and leaves any other
      node alone (fix_all_lint_issues.py:26-27, 38-56). */
  lemma TaskKeyOrderPermutes<V>(t: Task<V>)
    requires WellFormed(t)
    ensures WellFormed(TaskKeyOrder(t))
    ensures !t.Mapping? ==> TaskKeyOrder(t) == t
    ensures t.Mapping? ==> multiset(TaskKeyOrder(t).keys) == multiset(t.keys) && TaskKeyOrder(t).values == t.values
  {
    if t.Mapping? {
      KeyOrderIsPriorityList();
      ReorderKeysPermutes(KeyOrder, t.keys);
      var r := ReorderKeys(KeyOrder, t.keys);
      assert forall k :: k in r <==> k in t.keys;
    }
  }

  /** The keys of `KeyOrder` come first, in its order; the other keys follow in their
      original order (fix_all_lint_issues.py:29-54). */
  lemma TaskKeyOrderSorted<V>(t: Task<V>)
    requires t.Mapping?
    ensures var keys := TaskKeyOrder(t).keys;
      forall i, j :: 0 <= i < j < |keys| ==> Priority(KeyOrder, keys[i]) <= Priority(KeyOrder, keys[j])
    ensures Unlisted(KeyOrder, TaskKeyOrder(t).keys) == Unlisted(KeyOrder, t.keys)
  {
    KeyOrderIsPriorityList();
    ReorderKeysSorted(KeyOrder, t.keys);
    ReorderKeysStable(KeyOrder, t.keys);
  }

  /** Fixing the key order twice is fixing it once. */
  lemma TaskKeyOrderIdempotent<V>(t: Task<V>)
    ensures TaskKeyOrder(TaskKeyOrder(t)) == TaskKeyOrder(t)
  {
    if t.Mapping? {
      ReorderKeysIdempotent(KeyOrder, t.keys);
    }
  }

  // ================================================================ fix_ignore_errors

  /** A rewritten line keeps its leading whitespace, then holds `failed_when: false`, so it
      no longer matches; any other line is kept (fix_all_lint_issues.py:164-174). */
  lemma IgnoreErrorsLineFix(line: string)
    ensures IgnoresErrors(line) ==>
      LeadingSpace(IgnoreErrorsLine(line)) == LeadingSpace(line)
      && LStrip(IgnoreErrorsLine(line)) == "failed_when: false"
    ensures !IgnoresErrors(line) ==> IgnoreErrorsLine(line) == line
    ensures !IgnoresErrors(IgnoreErrorsLine(line))
  {
    if IgnoresErrors(line) {
      var indent := LeadingSpace(line);
      var fixed := "failed_when: false";
      LStripSpacesPrefix(indent, fixed);
      assert LStrip(fixed) == fixed;
      assert (indent + fixed)[..|indent|] == indent;
    }
  }

  /** A fixed line has no newline when the line it came from had none. */
  lemma IgnoreErrorsLineNoNewline(line: string)
    requires '\n' !in line
    ensures '\n' !in IgnoreErrorsLine(line)
  {
  }

  /** `fix_ignore_errors` keeps the number of lines, and line `k` of its result is line `k`
      of its input, fixed (fix_all_lint_issues.py:161-176). */
  lemma IgnoreErrorsPerLine(content: string)
    ensures |Split(IgnoreErrors(content), '\n')| == |Split(content, '\n')|
    ensures forall k :: 0 <= k < |Split(content, '\n')| ==>
      Split(IgnoreErrors(content), '\n')[k] == IgnoreErrorsLine(Split(content, '\n')[k])
  {
    var lines := Split(content, '\n');
    var fixed := LintFixer.IgnoreErrorsLines(lines);
    forall k | 0 <= k < |fixed|
      ensures '\n' !in fixed[k]
    {
      IgnoreErrorsLineNoNewline(lines[k]);
    }
    SplitJoin(fixed, '\n');
  }

  /** Running `fix_ignore_errors` twice is running it once. */
  lemma IgnoreErrorsIdempotent(content: string)
    ensures IgnoreErrors(IgnoreErrors(content)) == IgnoreErrors(content)
  {
    var lines := Split(content, '\n');
    var once := LintFixer.IgnoreErrorsLines(lines);
    IgnoreErrorsPerLine(content);
    assert Split(IgnoreErrors(content), '\n') == once;
    var twice := LintFixer.IgnoreErrorsLines(once);
    forall k | 0 <= k < |lines|
      ensures twice[k] == once[k]
    {
      IgnoreErrorsLineFix(lines[k]);
      if IgnoresErrors(lines[k]) {
        IgnoreErrorsLineFix(once[k]);
      }
    }
    assert twice == once;
  }

  // ================================================================ fix_shell_pipefail

  /** On a shell line the pipe can only come after the `shell:` key. */
  lemma PipeAfterKey(line: string)
    requires IsShellLine(line) && '|' in line
    ensures '|' in AfterShellKey(line)
  {
    NonSpaceInLStrip(line, '|');
    var key := ShellPrefix(line) + "shell:";
    assert StartsWith(LStrip(line), key);
    assert '|' !in key;
    AfterPrefix(LStrip(line), key, '|');
  }

  /** On a shell line with a pipe the pipe lies in the command, so the pattern at
      fix_all_lint_issues.py:112 always matches and the command keeps the pipe. */
  lemma PipeInCommand(line: string)
    requires IsShellLine(line) && '|' in line
    ensures HasShellCommand(line) && '|' in ShellCommand(line)
  {
    PipeAfterKey(line);
    NonSpaceInStrip(AfterShellKey(line), '|');
  }

  /** A shell line ending in `|` (a block scalar) is emitted unchanged; `set -o pipefail`
      is inserted after it only when the line already holds `pipefail` and the next line
      does not (fix_all_lint_issues.py:104-133). */
  lemma PipefailBlockScalar(line: string, rest: seq<string>)
    requires IsShellLine(line) && EndsWith(RStrip(line), "|")
    ensures Pipefail([line] + rest) ==
      [line]
      + (if Contains(line, "pipefail") && rest != [] && !Contains(rest[0], "pipefail")
         then [PipefailLine(rest[0])] else [])
      + Pipefail(rest)
  {
    var r := RStrip(line);
    RStripSpec(line);
    assert line[|r| - 1] == r[|r| - 1] == '|';
    assert '|' in line && !PipedOneLiner(line);
    var lines := [line] + rest;
    assert lines[0] == line && lines[1..] == rest;
    if Contains(line, "pipefail") {
      assert BlockScalarStart(line);
      if rest != [] {
        assert lines[1] == rest[0];
      }
    } else {
      assert !BlockScalarStart(line);
      assert Pipefail(lines) == [line] + Pipefail(rest);
      assert [line] + [] == [line];
    }
  }

  /** A piped one-liner without `pipefail` becomes the three-line block
      `shell: |`, `set -o pipefail`, the command (fix_all_lint_issues.py:104-121). */
  lemma PipefailOneLiner(line: string, rest: seq<string>)
    requires PipedOneLiner(line)
    ensures Pipefail([line] + rest) == OneLinerRewrite(line) + Pipefail(rest)
    ensures '|' in ShellCommand(line)
  {
    PipeInCommand(line);
    var lines := [line] + rest;
    assert lines[0] == line && lines[1..] == rest;
  }

  /** A line that is neither a piped one-liner nor a shell line ending in `|` passes
      through unchanged (fix_all_lint_issues.py:135): a line that is no shell line, and
      a shell line such as `shell: echo hi`, alike. */
  lemma PipefailOtherLine(line: string, rest: seq<string>)
    requires !PipedOneLiner(line) && !(IsShellLine(line) && EndsWith(RStrip(line), "|"))
    ensures Pipefail([line] + rest) == [line] + Pipefail(rest)
  {
    var lines := [line] + rest;
    assert lines[0] == line && lines[1..] == rest;
  }

  /** The text in front of a stripped, non-empty text does not change what `lstrip()` leaves. */
  lemma LStripBeforeStripped(p: string, t: string)
    requires AllSpace(p) && t != [] && !IsSpace(t[0])
    ensures LStrip(p + t) == t
  {
    LStripSpacesPrefix(p, t);
  }

  /** None of the three lines of a rewritten one-liner is itself a piped one-liner,
      given that the command does not itself start with a `shell:` key. */
  lemma OneLinerRewriteSettled(line: string)
    requires PipedOneLiner(line) && !IsShellLine(ShellCommand(line))
    ensures forall k :: 0 <= k < 3 ==> !PipedOneLiner(OneLinerRewrite(line)[k])
  {
    PipeInCommand(line);
    var indent := LeadingSpace(line);
    var header := indent + ShellPrefix(line) + "shell: |";
    assert RStrip(header) == header;
    var second := indent + "  set -o pipefail";
    assert EndsWith(second, "pipefail");
    EndsWithContains(second, "pipefail");
    var command := ShellCommand(line);
    StripSpec(AfterShellKey(line));
    var third := indent + "  " + command;
    assert third == (indent + "  ") + command;
    assert AllSpace(indent + "  ");
    LStripBeforeStripped(indent + "  ", command);
    assert !IsShellLine(third);
  }

  /** A line set in after a block scalar holds `pipefail`. */
  lemma PipefailLineSettled(next: string)
    ensures Contains(PipefailLine(next), "pipefail")
  {
    var inserted := PipefailLine(next);
    assert EndsWith(inserted, "pipefail");
    EndsWithContains(inserted, "pipefail");
  }

  /** After the fix no line is a piped one-line shell command without `pipefail`, as long
      as no rewritten command starts with a `shell:` key of its own
      (fix_all_lint_issues.py:98-136). */
  lemma {:induction false} PipefailLeavesNoBarePipe(lines: seq<string>)
    requires forall k :: 0 <= k < |lines| && PipedOneLiner(lines[k]) ==> !IsShellLine(ShellCommand(lines[k]))
    ensures forall k :: 0 <= k < |Pipefail(lines)| ==> !PipedOneLiner(Pipefail(lines)[k])
  {
    if lines != [] {
      var line, rest := lines[0], lines[1..];
      assert lines == [line] + rest;
      PipefailLeavesNoBarePipe(rest);
      var tail := Pipefail(rest);
      var head: seq<string>;
      if PipedOneLiner(line) {
        PipefailOneLiner(line, rest);
        OneLinerRewriteSettled(line);
        head := OneLinerRewrite(line);
      } else if IsShellLine(line) && EndsWith(RStrip(line), "|") {
        PipefailBlockScalar(line, rest);
        head := [line] + (if Contains(line, "pipefail") && rest != [] && !Contains(rest[0], "pipefail")
                          then [PipefailLine(rest[0])] else []);
        if rest != [] {
          PipefailLineSettled(rest[0]);
        }
      } else {
        head := [line];
        if IsShellLine(line) {
          assert !BlockScalarStart(line);
        } else {
          PipefailOtherLine(line, rest);
        }
      }
      assert Pipefail(lines) == head + tail;
      forall k | 0 <= k < |head + tail|
        ensures !PipedOneLiner((head + tail)[k])
      {
        if k >= |head| {
          assert (head + tail)[k] == tail[k - |head|];
        }
      }
    }
  }

  /** The lines a one-liner becomes hold no newline when the one-liner held none. */
  lemma OneLinerRewriteNoNewline(line: string)
    requires IsShellLine(line) && '\n' !in line
    ensures forall k :: 0 <= k < 3 ==> '\n' !in OneLinerRewrite(line)[k]
  {
    ShellPartsNoNewline(line);
    var indent := LeadingSpace(line);
    var r := OneLinerRewrite(line);
    assert '\n' !in ShellPrefix(line) + "shell: |";
    assert r[0] == indent + (ShellPrefix(line) + "shell: |");
    assert '\n' !in "  set -o pipefail";
    assert r[1] == indent + "  set -o pipefail";
    assert r[2] == indent + ("  " + ShellCommand(line));
  }

  /** The indent and the command of a shell line hold no newline when the line holds none. */
  lemma ShellPartsNoNewline(line: string)
    requires IsShellLine(line) && '\n' !in line
    ensures '\n' !in LeadingSpace(line) && '\n' !in ShellCommand(line)
  {
    var indent := LeadingSpace(line);
    assert line[..|indent|] == indent;
    LStripChars(line, '\n');
    var after := AfterShellKey(line);
    assert after == LStrip(line)[|ShellPrefix(line)| + 6..];
    LStripChars(after, '\n');
  }

  /** Every line `fix_shell_pipefail` emits is free of newlines when its input lines are. */
  lemma {:induction false} PipefailNoNewline(lines: seq<string>)
    requires forall k :: 0 <= k < |lines| ==> '\n' !in lines[k]
    ensures forall k :: 0 <= k < |Pipefail(lines)| ==> '\n' !in Pipefail(lines)[k]
  {
    if lines != [] {
      var line, rest := lines[0], lines[1..];
      assert lines == [line] + rest;
      PipefailNoNewline(rest);
      var tail := Pipefail(rest);
      var head: seq<string>;
      if PipedOneLiner(line) && HasShellCommand(line) {
        head := OneLinerRewrite(line);
        OneLinerRewriteNoNewline(line);
      } else if BlockScalarStart(line) {
        head := [line] + (if |lines| > 1 && !Contains(lines[1], "pipefail") then [PipefailLine(lines[1])] else []);
        if |lines| > 1 {
          var indent := LeadingSpace(lines[1]);
          assert lines[1][..|indent|] == indent;
        }
      } else {
        head := [line];
      }
      assert forall k :: 0 <= k < |head| ==> '\n' !in head[k];
      assert Pipefail(lines) == head + tail;
      forall k | 0 <= k < |head + tail|
        ensures '\n' !in (head + tail)[k]
      {
        if k >= |head| {
          assert (head + tail)[k] == tail[k - |head|];
        } else {
          assert (head + tail)[k] == head[k];
        }
      }
    }
  }

  /** The lines of the text `fix_shell_pipefail` returns are the lines its loop emits. */
  lemma ShellPipefailLines(content: string)
    ensures Split(ShellPipefail(content), '\n') == Pipefail(Split(content, '\n'))
  {
    var lines := Split(content, '\n');
    PipefailNoNewline(lines);
    SplitJoin(Pipefail(lines), '\n');
  }

  /** No line of the fixed text is a piped one-line shell command without `pipefail`, as
      long as no rewritten command starts with a `shell:` key of its own. */
  lemma ShellPipefailLeavesNoBarePipe(content: string)
    requires forall k :: 0 <= k < |Split(content, '\n')| && PipedOneLiner(Split(content, '\n')[k]) ==>
      !IsShellLine(ShellCommand(Split(content, '\n')[k]))
    ensures forall k :: 0 <= k < |Split(ShellPipefail(content), '\n')| ==>
      !PipedOneLiner(Split(ShellPipefail(content), '\n')[k])
  {
    ShellPipefailLines(content);
    PipefailLeavesNoBarePipe(Split(content, '\n'));
  }

  // ================================================================ fix_jinja2_spacing

  /** The text with every space character taken out. */
  function RemoveSpaces(s: string): string {
    if s == [] then [] else (if s[0] == ' ' then [] else [s[0]]) + RemoveSpaces(s[1..])
  }

  lemma {:induction false} RemoveSpacesAppend(a: string, b: string)
    ensures RemoveSpaces(a + b) == RemoveSpaces(a) + RemoveSpaces(b)
    decreases |a|
  {
    if a == [] {
      assert a + b == b;
    } else {
      RemoveSpacesAppend(a[1..], b);
      var h := if a[0] == ' ' then [] else [a[0]];
      assert (a + b)[0] == a[0] && (a + b)[1..] == a[1..] + b;
      assert RemoveSpaces(a + b) == h + RemoveSpaces(a[1..] + b);
      assert h + (RemoveSpaces(a[1..]) + RemoveSpaces(b)) == (h + RemoveSpaces(a[1..])) + RemoveSpaces(b);
    }
  }

  /** Padding the bar in front of a filter name with spaces adds nothing but spaces. */
  lemma RemoveSpacesPadded(f: string)
    ensures RemoveSpaces(" | " + f) == RemoveSpaces("|" + f)
  {
    RemoveSpacesAppend(" | ", f);
    RemoveSpacesAppend("|", f);
    assert RemoveSpaces(" | ") == "|" by {
      assert " | "[1..] == "| " && "| "[1..] == " " && " "[1..] == [];
    }
    assert RemoveSpaces("|") == "|" by {
      assert "|"[1..] == [];
    }
  }

  /** `{{ c` and `{{c` differ only by a space, whatever follows them. */
  lemma RemoveSpacesOpenPad(c: char, y: string, z: string)
    requires c != ' ' && RemoveSpaces(y) == RemoveSpaces(z)
    ensures RemoveSpaces("{{ " + [c] + y) == RemoveSpaces("{{" + [c] + z)
  {
    assert "{{ " + [c] + y == "{{ " + ([c] + y);
    assert "{{" + [c] + z == "{{" + ([c] + z);
    RemoveSpacesAppend("{{ ", [c] + y);
    RemoveSpacesAppend("{{", [c] + z);
    assert RemoveSpaces("{{ ") == "{{" by {
      assert "{{ "[1..] == "{ " && "{ "[1..] == " " && " "[1..] == [];
    }
    assert RemoveSpaces("{{") == "{{" by {
      assert "{{"[1..] == "{" && "{"[1..] == [];
    }
    assert ([c] + y)[1..] == y && ([c] + z)[1..] == z;
  }

  /** The `{{` substitution (fix_all_lint_issues.py:143) only inserts spaces. */
  lemma {:induction false} SpaceAfterOpenOnlySpaces(s: string)
    ensures RemoveSpaces(SpaceAfterOpen(s)) == RemoveSpaces(s)
    decreases |s|
  {
    if TightOpen(s) {
      SpaceAfterOpenOnlySpaces(s[3..]);
      assert s == "{{" + [s[2]] + s[3..];
      RemoveSpacesOpenPad(s[2], SpaceAfterOpen(s[3..]), s[3..]);
    } else if s != [] {
      SpaceAfterOpenOnlySpaces(s[1..]);
    }
  }

  /** The `}}` substitution (fix_all_lint_issues.py:145) only inserts spaces. */
  lemma {:induction false} SpaceBeforeCloseOnlySpaces(s: string)
    ensures RemoveSpaces(SpaceBeforeClose(s)) == RemoveSpaces(s)
    decreases |s|
  {
    if TightClose(s) {
      SpaceBeforeCloseOnlySpaces(s[3..]);
      var y := SpaceBeforeClose(s[3..]);
      var x := [s[0]] + (" " + ("}}" + y));
      assert SpaceBeforeClose(s) == x;
      assert x[1..] == " " + ("}}" + y);
      RemoveSpacesAppend(" ", "}}" + y);
      RemoveSpacesAppend("}}", y);
      assert s[1..] == "}}" + s[3..];
      RemoveSpacesAppend("}}", s[3..]);
    } else if s != [] {
      SpaceBeforeCloseOnlySpaces(s[1..]);
    }
  }

  /** The filter-call substitution (fix_all_lint_issues.py:154) only inserts spaces. */
  lemma {:induction false} SpaceBeforeCallOnlySpaces(s: string, f: string)
    ensures RemoveSpaces(SpaceBeforeCall(s, f)) == RemoveSpaces(s)
    decreases |s|
  {
    if TightCall(s, f) {
      SpaceBeforeCallOnlySpaces(s[|f| + 2..], f);
      SpaceBeforeCallRewritten(s, f);
    } else if s != [] {
      SpaceBeforeCallOnlySpaces(s[1..], f);
      assert SpaceBeforeCall(s, f) == [s[0]] + SpaceBeforeCall(s[1..], f);
      RemoveSpacesCons(s[0], SpaceBeforeCall(s[1..], f), s[1..]);
      assert s == [s[0]] + s[1..];
    }
  }

  /** One rewritten `|f(`, given that the rest of the text only gains spaces. */
  lemma SpaceBeforeCallRewritten(s: string, f: string)
    requires TightCall(s, f)
    requires RemoveSpaces(SpaceBeforeCall(s[|f| + 2..], f)) == RemoveSpaces(s[|f| + 2..])
    ensures RemoveSpaces(SpaceBeforeCall(s, f)) == RemoveSpaces(s)
  {
    var n := |f| + 2;
    var y := SpaceBeforeCall(s[n..], f);
    PrefixSplit(s, "|" + f + "(");
    assert s == ("|" + f) + ("(" + s[n..]);
    assert SpaceBeforeCall(s, f) == (" | " + f) + ("(" + y);
    RemoveSpacesCons('(', y, s[n..]);
    RemoveSpacesPaddedJoin(f, "(" + y, "(" + s[n..]);
  }

  /** ` | f` and `|f` in front of two texts that agree up to spaces keep them agreeing. */
  lemma RemoveSpacesPaddedJoin(f: string, y: string, z: string)
    requires RemoveSpaces(y) == RemoveSpaces(z)
    ensures RemoveSpaces((" | " + f) + y) == RemoveSpaces(("|" + f) + z)
  {
    RemoveSpacesAppend(" | " + f, y);
    RemoveSpacesAppend("|" + f, z);
    RemoveSpacesPadded(f);
  }

  /** A character in front of two texts that agree up to spaces keeps them agreeing. */
  lemma RemoveSpacesCons(c: char, y: string, z: string)
    requires RemoveSpaces(y) == RemoveSpaces(z)
    ensures RemoveSpaces([c] + y) == RemoveSpaces([c] + z)
  {
    assert ([c] + y)[0] == c && ([c] + y)[1..] == y;
    assert ([c] + z)[0] == c && ([c] + z)[1..] == z;
  }

  /** The bare-filter substitution (fix_all_lint_issues.py:155) only inserts spaces. */
  lemma {:induction false} SpaceBeforeFilterOnlySpaces(s: string, f: string)
    ensures RemoveSpaces(SpaceBeforeFilter(s, f)) == RemoveSpaces(s)
    decreases |s|
  {
    if TightFilter(s, f) {
      SpaceBeforeFilterOnlySpaces(s[|f| + 1..], f);
      SpaceBeforeFilterRewritten(s, f);
    } else if s != [] {
      SpaceBeforeFilterOnlySpaces(s[1..], f);
      assert SpaceBeforeFilter(s, f) == [s[0]] + SpaceBeforeFilter(s[1..], f);
      RemoveSpacesCons(s[0], SpaceBeforeFilter(s[1..], f), s[1..]);
      assert s == [s[0]] + s[1..];
    }
  }

  /** One rewritten `|f`, given that the rest of the text only gains spaces. */
  lemma SpaceBeforeFilterRewritten(s: string, f: string)
    requires TightFilter(s, f)
    requires RemoveSpaces(SpaceBeforeFilter(s[|f| + 1..], f)) == RemoveSpaces(s[|f| + 1..])
    ensures RemoveSpaces(SpaceBeforeFilter(s, f)) == RemoveSpaces(s)
  {
    var n := |f| + 1;
    var y := SpaceBeforeFilter(s[n..], f);
    PrefixSplit(s, "|" + f);
    assert SpaceBeforeFilter(s, f) == (" | " + f) + y;
    RemoveSpacesPaddedJoin(f, y, s[n..]);
  }

  lemma {:induction false} SpaceFiltersOnlySpaces(s: string, fs: seq<string>)
    ensures RemoveSpaces(SpaceFilters(s, fs)) == RemoveSpaces(s)
    decreases |fs|
  {
    if fs != [] {
      var t := SpaceBeforeFilter(SpaceBeforeCall(s, fs[0]), fs[0]);
      SpaceBeforeCallOnlySpaces(s, fs[0]);
      SpaceBeforeFilterOnlySpaces(SpaceBeforeCall(s, fs[0]), fs[0]);
      SpaceFiltersOnlySpaces(t, fs[1..]);
    }
  }

  /** `fix_jinja2_spacing` only inserts spaces: with the spaces taken out, its result and
      its input are the same text (fix_all_lint_issues.py:140-157). */
  lemma Jinja2SpacingOnlySpaces(content: string)
    ensures RemoveSpaces(Jinja2Spacing(content)) == RemoveSpaces(content)
  {
    SpaceAfterOpenOnlySpaces(content);
    SpaceBeforeCloseOnlySpaces(SpaceAfterOpen(content));
    SpaceFiltersOnlySpaces(SpaceBeforeClose(SpaceAfterOpen(content)), Filters);
  }

  /** After the `{{` substitution no `{{` is directly followed by anything but `{` or a
      space, so a second pass changes nothing (fix_all_lint_issues.py:143). */
  lemma SpaceAfterOpenIdempotent(s: string)
    ensures SpaceAfterOpen(SpaceAfterOpen(s)) == SpaceAfterOpen(s)
  {
    SpaceAfterOpenSettled(s);
    SpaceAfterOpenFixed(SpaceAfterOpen(s));
  }

  /** The `{{` substitution leaves text without a match as it is. */
  lemma {:induction false} SpaceAfterOpenFixed(s: string)
    requires NoMatch(TightOpen, s)
    ensures SpaceAfterOpen(s) == s
    decreases |s|
  {
    if s != [] {
      SpaceAfterOpenFixed(s[1..]);
      assert [s[0]] + s[1..] == s;
    }
  }

  /** After the `}}` substitution no `}}` directly follows anything but `}` or a space, so
      a second pass changes nothing (fix_all_lint_issues.py:145). */
  lemma SpaceBeforeCloseIdempotent(s: string)
    ensures SpaceBeforeClose(SpaceBeforeClose(s)) == SpaceBeforeClose(s)
  {
    SpaceBeforeCloseSettled(s);
    SpaceBeforeCloseFixed(SpaceBeforeClose(s));
  }

  /** The `}}` substitution leaves text without a match as it is. */
  lemma {:induction false} SpaceBeforeCloseFixed(s: string)
    requires NoMatch(TightClose, s)
    ensures SpaceBeforeClose(s) == s
    decreases |s|
  {
    if s != [] {
      SpaceBeforeCloseFixed(s[1..]);
      assert [s[0]] + s[1..] == s;
    }
  }

  // ------------------------------------------------- what each substitution leaves behind

  /** No suffix of `s`, the whole of `s` and the empty suffix included, starts with a
      match of the pattern `m`: the substitution for `m` finds nothing left to rewrite. */
  predicate NoMatch(m: string -> bool, s: string)
    decreases |s|
  {
    !m(s) && (s == [] || NoMatch(m, s[1..]))
  }

  /** `NoMatch` read at one position. */
  lemma {:induction false} NoMatchAt(m: string -> bool, s: string, i: nat)
    requires NoMatch(m, s) && i <= |s|
    ensures !m(s[i..])
    decreases i
  {
    if i > 0 {
      NoMatchAt(m, s[1..], i - 1);
      assert s[1..][i - 1..] == s[i..];
    }
  }

  lemma NoMatchCons(m: string -> bool, c: char, t: string)
    requires NoMatch(m, t) && !m([c] + t)
    ensures NoMatch(m, [c] + t)
  {
    assert ([c] + t)[1..] == t;
  }

  /** Text without a `|` in front of text holding no match of a pattern that only
      matches at a `|` holds no match either. */
  lemma {:induction false} NoMatchBarFree(m: string -> bool, p: string, t: string)
    requires forall x :: m(x) ==> x != [] && x[0] == '|'
    requires '|' !in p && NoMatch(m, t)
    ensures NoMatch(m, p + t)
    decreases |p|
  {
    if p == [] {
      assert p + t == t;
    } else {
      NoMatchBarFree(m, p[1..], t);
      assert p + t == [p[0]] + (p[1..] + t);
      NoMatchCons(m, p[0], p[1..] + t);
    }
  }

  /** No `{{` directly followed by a character other than `{` and space is left after the
      `{{` substitution (fix_all_lint_issues.py:143): the space it inserts cannot start a
      new match, and the character it keeps is not a `{`. */
  lemma {:induction false} SpaceAfterOpenSettled(s: string)
    ensures NoMatch(TightOpen, SpaceAfterOpen(s))
    decreases |s|
  {
    var r := SpaceAfterOpen(s);
    if TightOpen(s) {
      var y := SpaceAfterOpen(s[3..]);
      SpaceAfterOpenSettled(s[3..]);
      var c := s[2];
      assert r == [s[0]] + ([s[1]] + ([' '] + ([c] + y)));
      NoMatchCons(TightOpen, c, y);
      NoMatchCons(TightOpen, ' ', [c] + y);
      NoMatchCons(TightOpen, '{', [' '] + ([c] + y));
      NoMatchCons(TightOpen, '{', [s[1]] + ([' '] + ([c] + y)));
    } else if s != [] {
      var y := SpaceAfterOpen(s[1..]);
      SpaceAfterOpenSettled(s[1..]);
      assert r == [s[0]] + y;
      if |s| >= 3 && s[0] == '{' && s[1] == '{' {
        if TightOpen(s[1..]) {
          assert r[2] == y[1] == '{';
        } else {
          assert s[1..][1..] == s[2..];
          assert y == [s[1]] + SpaceAfterOpen(s[2..]);
          assert r[2] == s[2];
        }
      } else if |s| == 2 {
        assert s[1..][1..] == [];
        assert y == [s[1]];
      }
      NoMatchCons(TightOpen, s[0], y);
    } else {
      assert r == [];
    }
  }

  /** No `}}` directly following a character other than `}` and space is left after the
      `}}` substitution (fix_all_lint_issues.py:145). */
  lemma {:induction false} SpaceBeforeCloseSettled(s: string)
    ensures NoMatch(TightClose, SpaceBeforeClose(s))
    decreases |s|
  {
    var r := SpaceBeforeClose(s);
    if TightClose(s) {
      var y := SpaceBeforeClose(s[3..]);
      SpaceBeforeCloseSettled(s[3..]);
      assert r == [s[0]] + ([' '] + (['}'] + (['}'] + y)));
      NoMatchCons(TightClose, '}', y);
      NoMatchCons(TightClose, '}', ['}'] + y);
      NoMatchCons(TightClose, ' ', ['}'] + (['}'] + y));
      NoMatchCons(TightClose, s[0], [' '] + (['}'] + (['}'] + y)));
    } else if s != [] {
      var y := SpaceBeforeClose(s[1..]);
      SpaceBeforeCloseSettled(s[1..]);
      assert r == [s[0]] + y;
      if |s| >= 3 && s[1] == '}' {
        assert !TightClose(s[1..]);
        assert s[1..][1..] == s[2..];
        assert y == [s[1]] + SpaceBeforeClose(s[2..]);
        assert r[2] == s[2];
      } else if |s| == 2 {
        assert s[1..][1..] == [];
        assert y == [s[1]];
      }
      NoMatchCons(TightClose, s[0], y);
    } else {
      assert r == [];
    }
  }

  /** The call pattern `\|f\(` for one filter name. */
  function CallPattern(f: string): string -> bool {
    t => TightCall(t, f)
  }

  /** The filter pattern `\|f(?![a-zA-Z_])` for one filter name. */
  function FilterPattern(f: string): string -> bool {
    t => TightFilter(t, f)
  }

  /** A filter name the substitutions cannot confuse with the text they insert: every
      name of `Filters` is one (`FiltersPlain`). */
  predicate PlainName(f: string) {
    f != [] && '|' !in f && ' ' !in f
  }

  lemma FiltersPlain()
    ensures forall i :: 0 <= i < |Filters| ==> PlainName(Filters[i])
  {
  }

  /** Text the call substitution produces starts with a text free of `|` and space only
      when its input already does: every rewrite it makes starts with a space. */
  lemma {:induction false} SpaceBeforeCallStart(x: string, f: string, q: string)
    requires '|' !in q && ' ' !in q
    ensures StartsWith(SpaceBeforeCall(x, f), q) ==> StartsWith(x, q)
    decreases |x|
  {
    var r := SpaceBeforeCall(x, f);
    if q != [] {
      if TightCall(x, f) {
        assert r[0] == ' ';
      } else if x != [] {
        var y := SpaceBeforeCall(x[1..], f);
        assert r == [x[0]] + y;
        SpaceBeforeCallStart(x[1..], f, q[1..]);
        if StartsWith(r, q) {
          assert y[..|q| - 1] == q[1..];
          assert x[..|q|] == [x[0]] + x[1..][..|q| - 1];
        }
      }
    }
  }

  /** No `|f(` is left after the call substitution for a plain filter name `f`
      (fix_all_lint_issues.py:154): the ` | ` it inserts puts a space after the `|`. */
  lemma {:induction false} SpaceBeforeCallSettled(s: string, f: string)
    requires PlainName(f)
    ensures NoMatch(CallPattern(f), SpaceBeforeCall(s, f))
    decreases |s|
  {
    if TightCall(s, f) {
      SpaceBeforeCallSettled(s[|f| + 2..], f);
      CallRewriteSettled(f, SpaceBeforeCall(s[|f| + 2..], f));
    } else if s != [] {
      SpaceBeforeCallSettled(s[1..], f);
      CallKeptSettled(s, f);
    }
  }

  lemma CallAtBar(f: string)
    ensures forall x :: CallPattern(f)(x) ==> x != [] && x[0] == '|'
  {
  }

  /** A rewritten ` | f(` in front of text with no `|f(` left holds none either. */
  lemma CallRewriteSettled(f: string, y: string)
    requires PlainName(f) && NoMatch(CallPattern(f), y)
    ensures NoMatch(CallPattern(f), " | " + f + "(" + y)
  {
    var m := CallPattern(f);
    var p := " " + f + "(";
    var t := p + y;
    assert NoMatch(m, t) by {
      CallAtBar(f);
      NoMatchBarFree(m, p, y);
    }
    assert !m("|" + t) by {
      assert t[0] == ' ' && (f + "(")[0] == f[0];
      StartsWithCons('|', t, f + "(");
      assert "|" + f + "(" == "|" + (f + "(");
    }
    NoMatchCons(m, '|', t);
    assert !m(" " + ("|" + t)) by {
      StartsWithHead(" " + ("|" + t), "|" + f + "(");
    }
    NoMatchCons(m, ' ', "|" + t);
    CallRewriteShape(f, y);
  }

  lemma CallRewriteShape(f: string, y: string)
    ensures " | " + f + "(" + y == " " + ("|" + ((" " + f + "(") + y))
  {
    var p := " " + f + "(";
    assert " | " + f + "(" == " " + ("|" + p);
    AppendAssoc(" ", "|" + p, y);
    AppendAssoc("|", p, y);
  }

  /** A character the call substitution keeps, in front of its settled output for the
      rest, does not start a `|f(` either. */
  lemma CallKeptSettled(s: string, f: string)
    requires PlainName(f) && s != [] && !TightCall(s, f)
    requires NoMatch(CallPattern(f), SpaceBeforeCall(s[1..], f))
    ensures NoMatch(CallPattern(f), [s[0]] + SpaceBeforeCall(s[1..], f))
  {
    var m := CallPattern(f);
    var y := SpaceBeforeCall(s[1..], f);
    var z := [s[0]] + y;
    assert !m(z) by {
      assert m(z) == TightCall(z, f);
      SpaceBeforeCallStart(s[1..], f, f + "(");
      if s[0] == '|' {
        assert "|" + f + "(" == [s[0]] + (f + "(");
        assert s == [s[0]] + s[1..];
        StartsWithCons(s[0], y, f + "(");
        StartsWithCons(s[0], s[1..], f + "(");
      } else {
        assert z[0] != ("|" + f + "(")[0];
      }
    }
    NoMatchCons(m, s[0], y);
  }

  /** Text the filter substitution produces starts with a text free of `|` and space only
      when its input already does, and the character after that start is a name
      character in the one exactly when it is in the other. */
  lemma {:induction false} SpaceBeforeFilterStart(x: string, f: string, q: string)
    requires '|' !in q && ' ' !in q
    ensures StartsWith(SpaceBeforeFilter(x, f), q) ==>
      && StartsWith(x, q)
      && (|x| == |q| ==> |SpaceBeforeFilter(x, f)| == |q|)
      && (|x| > |q| ==>
            |SpaceBeforeFilter(x, f)| > |q| && (IsNameChar(SpaceBeforeFilter(x, f)[|q|]) <==> IsNameChar(x[|q|])))
    decreases |x|
  {
    var r := SpaceBeforeFilter(x, f);
    if q == [] {
      if TightFilter(x, f) {
        assert r[0] == ' ' && x[0] == '|';
      } else if x != [] {
        assert r == [x[0]] + SpaceBeforeFilter(x[1..], f);
      }
    } else if TightFilter(x, f) {
      assert r[0] == ' ';
    } else if x != [] {
      var y := SpaceBeforeFilter(x[1..], f);
      assert r == [x[0]] + y;
      SpaceBeforeFilterStart(x[1..], f, q[1..]);
      if StartsWith(r, q) {
        assert y[..|q| - 1] == q[1..];
        assert x[..|q|] == [x[0]] + x[1..][..|q| - 1];
        if |x| > |q| {
          assert r[|q|] == y[|q| - 1] && x[|q|] == x[1..][|q| - 1];
        }
      }
    }
  }

  /** No `|f` that does not run on into a longer name is left after the filter
      substitution for a plain filter name `f` (fix_all_lint_issues.py:155). */
  lemma {:induction false} SpaceBeforeFilterSettled(s: string, f: string)
    requires PlainName(f)
    ensures NoMatch(FilterPattern(f), SpaceBeforeFilter(s, f))
    decreases |s|
  {
    if TightFilter(s, f) {
      SpaceBeforeFilterSettled(s[|f| + 1..], f);
      FilterRewriteSettled(f, SpaceBeforeFilter(s[|f| + 1..], f));
    } else if s != [] {
      SpaceBeforeFilterSettled(s[1..], f);
      FilterKeptSettled(s, f);
    }
  }

  lemma FilterAtBar(f: string)
    ensures forall x :: FilterPattern(f)(x) ==> x != [] && x[0] == '|'
  {
  }

  /** A rewritten ` | f` in front of text with no bare `|f` left holds none either. */
  lemma FilterRewriteSettled(f: string, y: string)
    requires PlainName(f) && NoMatch(FilterPattern(f), y)
    ensures NoMatch(FilterPattern(f), " | " + f + y)
  {
    var m := FilterPattern(f);
    var p := " " + f;
    var t := p + y;
    assert NoMatch(m, t) by {
      FilterAtBar(f);
      NoMatchBarFree(m, p, y);
    }
    assert !m("|" + t) by {
      assert ("|" + t)[1] == ' ' && ("|" + f)[1] == f[0];
    }
    NoMatchCons(m, '|', t);
    assert !m(" " + ("|" + t)) by {
      StartsWithHead(" " + ("|" + t), "|" + f);
    }
    NoMatchCons(m, ' ', "|" + t);
    FilterRewriteShape(f, y);
  }

  lemma FilterRewriteShape(f: string, y: string)
    ensures " | " + f + y == " " + ("|" + ((" " + f) + y))
  {
    var p := " " + f;
    assert " | " + f == " " + ("|" + p);
    AppendAssoc(" ", "|" + p, y);
    AppendAssoc("|", p, y);
  }

  /** A character the filter substitution keeps, in front of its settled output for
      the rest, does not start a bare `|f` either. */
  lemma FilterKeptSettled(s: string, f: string)
    requires PlainName(f) && s != [] && !TightFilter(s, f)
    requires NoMatch(FilterPattern(f), SpaceBeforeFilter(s[1..], f))
    ensures NoMatch(FilterPattern(f), [s[0]] + SpaceBeforeFilter(s[1..], f))
  {
    var m := FilterPattern(f);
    var y := SpaceBeforeFilter(s[1..], f);
    var z := [s[0]] + y;
    assert !m(z) by {
      assert m(z) == TightFilter(z, f);
      if s[0] != '|' {
        assert z[0] != ("|" + f)[0];
      } else if StartsWith(y, f) {
        assert "|" + f == [s[0]] + f;
        assert s == [s[0]] + s[1..];
        StartsWithCons(s[0], s[1..], f);
        SpaceBeforeFilterStart(s[1..], f, f);
        assert |s| > |f| + 1 && IsNameChar(s[|f| + 1]);
        assert s[|f| + 1] == s[1..][|f|] && z[|f| + 1] == y[|f|];
      } else {
        assert "|" + f == [s[0]] + f;
        StartsWithCons(s[0], y, f);
      }
    }
    NoMatchCons(m, s[0], y);
  }
}
