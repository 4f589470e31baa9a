/** The handful of Python `str` operations the fixers are built from, written out
    character by character so that their edge cases (what counts as whitespace,
    what an empty pattern does) are the ones the Python runtime has. */
module Text {

  /** `c.isspace()` in Python 3. The same set is what `\s` matches in a regular
      expression over `str`, and what `strip()`/`lstrip()`/`rstrip()` remove. */
  predicate IsSpace(c: char) {
    var n := c as int;
    (9 <= n <= 13) || (28 <= n <= 32) || n == 0x85 || n == 0xA0 || n == 0x1680
    || (0x2000 <= n <= 0x200A) || n == 0x2028 || n == 0x2029 || n == 0x202F
    || n == 0x205F || n == 0x3000
  }

  /** `(a + b) + c == a + (b + c)`, spelled out for loop invariants and the
      list-building recursions. */
  lemma AppendAssoc<T>(a: seq<T>, b: seq<T>, c: seq<T>)
    ensures (a + b) + c == a + (b + c)
  {
  }

  predicate AllSpace(s: string) {
    forall i :: 0 <= i < |s| ==> IsSpace(s[i])
  }

  /** `s.lstrip()`: the suffix left after every leading whitespace character is removed
      (LStripSpec states what is removed). */
  function LStrip(s: string): (r: string)
    ensures |r| <= |s|
  {
    if s != [] && IsSpace(s[0]) then LStrip(s[1..]) else s
  }

  /** `s.rstrip()`: the prefix left after every trailing whitespace character is removed
      (RStripSpec states what is removed). */
  function RStrip(s: string): (r: string)
    ensures |r| <= |s|
  {
    if s != [] && IsSpace(s[|s| - 1]) then RStrip(s[..|s| - 1]) else s
  }

  /** `len(s) - len(s.lstrip())`: how many whitespace characters the line starts with.
      A line holding only `"\n"` has indent 1. */
  function Indent(s: string): nat {
    |s| - |LStrip(s)|
  }

  /** `s.strip()`: the text between the leading and the trailing whitespace. */
  function Strip(s: string): string {
    RStrip(LStrip(s))
  }

  lemma {:induction false} LStripSpec(s: string)
    ensures LStrip(s) == s[|s| - |LStrip(s)|..]
    ensures AllSpace(s[..|s| - |LStrip(s)|])
    ensures LStrip(s) == [] || !IsSpace(LStrip(s)[0])
  {
    if s != [] && IsSpace(s[0]) {
      LStripSpec(s[1..]);
      var r := LStrip(s[1..]);
      assert s[1..][..|s| - 1 - |r|] == s[1..|s| - |r|];
    }
  }

  lemma {:induction false} RStripSpec(s: string)
    ensures RStrip(s) == s[..|RStrip(s)|]
    ensures AllSpace(s[|RStrip(s)|..])
    ensures RStrip(s) == [] || !IsSpace(RStrip(s)[|RStrip(s)| - 1])
  {
    if s != [] && IsSpace(s[|s| - 1]) {
      var front := s[..|s| - 1];
      RStripSpec(front);
      var r := RStrip(front);
      assert RStrip(s) == r;
      assert front[..|r|] == s[..|r|];
      assert s[|r|..] == front[|r|..] + [s[|s| - 1]];
      assert AllSpace(s[|r|..]) by {
        forall k | 0 <= k < |s| - |r| ensures IsSpace(s[|r|..][k]) {
          if k < |front| - |r| { assert s[|r|..][k] == front[|r|..][k]; }
        }
      }
    } else {
      assert RStrip(s) == s && s[|s|..] == [];
    }
  }

  /** The indent is the length of the run of whitespace the line starts with. */
  lemma IndentSpec(s: string)
    ensures AllSpace(s[..Indent(s)])
    ensures Indent(s) == |s| || !IsSpace(s[Indent(s)])
  {
    LStripSpec(s);
  }

  /** `strip()` keeps exactly the text between the leading and the trailing whitespace. */
  lemma StripSpec(s: string)
    ensures Indent(s) + |Strip(s)| <= |s|
    ensures Strip(s) == s[Indent(s)..Indent(s) + |Strip(s)|]
    ensures AllSpace(s[..Indent(s)]) && AllSpace(s[Indent(s) + |Strip(s)|..])
    ensures Strip(s) == [] || (!IsSpace(Strip(s)[0]) && !IsSpace(Strip(s)[|Strip(s)| - 1]))
  {
    LStripSpec(s);
    var l := LStrip(s);
    RStripSpec(l);
    var r := RStrip(l);
    var w := Indent(s);
    assert l == s[w..];
    assert r == l[..|r|] == s[w..w + |r|];
    assert l[|r|..] == s[w + |r|..];
  }

  /** A line is blank exactly when it is all indent; otherwise its stripped text starts at the indent. */
  lemma StripEmpty(s: string)
    ensures Strip(s) == [] <==> Indent(s) == |s|
    ensures Strip(s) != [] ==> Strip(s)[0] == s[Indent(s)]
  {
    StripSpec(s);
    if Strip(s) == [] && Indent(s) < |s| {
      assert s[Indent(s)..][0] == s[Indent(s)];
      IndentSpec(s);
    }
  }

  predicate StartsWith(s: string, p: string) {
    |p| <= |s| && s[..|p|] == p
  }

  /** A text does not start with a pattern whose first character differs from its own. */
  lemma StartsWithHead(s: string, p: string)
    requires s != [] && p != [] && s[0] != p[0]
    ensures !StartsWith(s, p)
  {
    if |p| <= |s| {
      assert s[..|p|][0] == s[0];
    }
  }

  /** One more character in front of both texts does not change whether one starts with the other. */
  lemma StartsWithCons(c: char, x: string, q: string)
    ensures StartsWith([c] + x, [c] + q) <==> StartsWith(x, q)
  {
    if |q| <= |x| {
      assert ([c] + x)[..|q| + 1] == [c] + x[..|q|];
    }
    if StartsWith([c] + x, [c] + q) {
      assert x[..|q|] == ([c] + x)[1..|q| + 1] == ([c] + q)[1..];
    }
  }

  predicate EndsWith(s: string, p: string) {
    |p| <= |s| && s[|s| - |p|..] == p
  }

  /** A text does not end with a pattern whose first character it does not hold. */
  lemma EndsWithHeadIn(s: string, p: string)
    requires p != [] && p[0] !in s
    ensures !EndsWith(s, p)
  {
    if |p| <= |s| {
      assert s[|s| - |p|..][0] == s[|s| - |p|];
    }
  }

  /** `t in s` for strings: `t` occurs somewhere in `s` (the empty string occurs everywhere). */
  predicate Contains(s: string, t: string)
    decreases |s|
  {
    StartsWith(s, t) || (s != [] && Contains(s[1..], t))
  }

  function Spaces(n: nat): (r: string)
    ensures |r| == n && AllSpace(r)
  {
    seq(n, _ => ' ')
  }

  /** `_indent(s, n)` of scripts/yaml_indent_fix.py: `n` spaces, the stripped text, a newline. */
  function Reindent(s: string, n: nat): string {
    Spaces(n) + Strip(s) + "\n"
  }

  /** `s.replace(pat, rep)`: every non-overlapping occurrence of `pat`, scanning left to
      right, is replaced; an empty `pat` inserts `rep` before every character and at the end. */
  function Replace(s: string, pat: string, rep: string): (r: string)
    ensures pat != [] && !Contains(s, pat) ==> r == s
    decreases |s|
  {
    if pat == [] then
      (if s == [] then rep else rep + [s[0]] + Replace(s[1..], pat, rep))
    else if StartsWith(s, pat) then rep + Replace(s[|pat|..], pat, rep)
    else if s == [] then []
    else [s[0]] + Replace(s[1..], pat, rep)
  }

  /** `s.split(sep)` for a one-character separator: never empty, and no part holds `sep`. */
  function Split(s: string, sep: char): (parts: seq<string>)
    ensures |parts| >= 1
    ensures forall k :: 0 <= k < |parts| ==> sep !in parts[k]
  {
    if s == [] then [[]]
    else if s[0] == sep then [[]] + Split(s[1..], sep)
    else
      var rest := Split(s[1..], sep);
      [[s[0]] + rest[0]] + rest[1..]
  }

  /** `s.split(sep, 1)[0]`: the text before the first `sep`, or all of `s` when there is none. */
  function BeforeSep(s: string, sep: char): (r: string)
    ensures StartsWith(s, r) && sep !in r
    ensures |r| < |s| ==> s[|r|] == sep
  {
    if s == [] || s[0] == sep then [] else [s[0]] + BeforeSep(s[1..], sep)
  }

  /** `sep.join(parts)`. */
  function Join(parts: seq<string>, sep: char): string {
    if |parts| == 0 then []
    else if |parts| == 1 then parts[0]
    else parts[0] + [sep] + Join(parts[1..], sep)
  }

  // ---------------------------------------------------------------- lemmas

  /** Joining the pieces of a split gives back the original text. */
  lemma {:induction false} JoinSplit(s: string, sep: char)
    ensures Join(Split(s, sep), sep) == s
  {
    if s == [] {
    } else if s[0] == sep {
      JoinSplit(s[1..], sep);
      assert s == [sep] + s[1..];
    } else {
      JoinSplit(s[1..], sep);
      var rest := Split(s[1..], sep);
      if |rest| == 1 {
        assert Join(rest, sep) == rest[0];
      } else {
        assert Join(rest, sep) == rest[0] + [sep] + Join(rest[1..], sep);
        assert Join(Split(s, sep), sep) == [s[0]] + rest[0] + [sep] + Join(rest[1..], sep);
      }
      assert s == [s[0]] + s[1..];
    }
  }

  /** Splitting a join of separator-free pieces gives back the pieces. */
  lemma {:induction false} SplitJoin(parts: seq<string>, sep: char)
    requires |parts| >= 1
    requires forall k :: 0 <= k < |parts| ==> sep !in parts[k]
    ensures Split(Join(parts, sep), sep) == parts
  {
    if |parts| == 1 {
      SplitNoSep(parts[0], sep);
    } else {
      SplitJoin(parts[1..], sep);
      SplitPrefix(parts[0], Join(parts[1..], sep), sep);
      assert [parts[0]] + parts[1..] == parts;
    }
  }

  lemma {:induction false} SplitNoSep(s: string, sep: char)
    requires sep !in s
    ensures Split(s, sep) == [s]
  {
    if s != [] {
      SplitNoSep(s[1..], sep);
      assert [s[0]] + s[1..] == s;
    }
  }

  lemma {:induction false} SplitPrefix(a: string, b: string, sep: char)
    requires sep !in a
    ensures Split(a + [sep] + b, sep) == [a] + Split(b, sep)
  {
    if a == [] {
      assert a + [sep] + b == [sep] + b;
      assert ([sep] + b)[1..] == b;
    } else {
      SplitPrefix(a[1..], b, sep);
      assert (a + [sep] + b)[1..] == a[1..] + [sep] + b;
      assert [a[0]] + a[1..] == a;
    }
  }

  /** Whitespace in front of a text does not change what `lstrip()` leaves. */
  lemma {:induction false} LStripSpacesPrefix(p: string, r: string)
    requires AllSpace(p)
    ensures LStrip(p + r) == LStrip(r)
  {
    if p != [] {
      var s := p + r;
      assert s[0] == p[0] && IsSpace(s[0]);
      assert s[1..] == p[1..] + r;
      assert LStrip(s) == LStrip(s[1..]);
      LStripSpacesPrefix(p[1..], r);
    } else {
      assert p + r == r;
    }
  }

  /** Whitespace after a text does not change what `rstrip()` leaves. */
  lemma {:induction false} RStripSpacesSuffix(t: string, w: string)
    requires AllSpace(w)
    ensures RStrip(t + w) == RStrip(t)
  {
    if w != [] {
      assert (t + w)[..|t + w| - 1] == t + w[..|w| - 1];
      RStripSpacesSuffix(t, w[..|w| - 1]);
    } else {
      assert t + w == t;
    }
  }

  /** A line rewritten by `Reindent` keeps its stripped text. */
  lemma StripReindent(s: string, n: nat)
    ensures Strip(Reindent(s, n)) == Strip(s)
  {
    var t := Strip(s);
    StripSpec(s);
    assert Reindent(s, n) == Spaces(n) + (t + "\n");
    LStripSpacesPrefix(Spaces(n), t + "\n");
    if t == [] {
      assert LStrip(t + "\n") == [];
    } else {
      assert LStrip(t + "\n") == t + "\n";
      RStripSpacesSuffix(t, "\n");
      assert RStrip(t) == t;
    }
  }

  /** A line rewritten by `Reindent` with non-blank text has exactly the requested indent. */
  lemma IndentReindent(s: string, n: nat)
    requires Strip(s) != []
    ensures Indent(Reindent(s, n)) == n
  {
    var t := Strip(s);
    StripSpec(s);
    assert Reindent(s, n) == Spaces(n) + (t + "\n");
    LStripSpacesPrefix(Spaces(n), t + "\n");
    assert LStrip(t + "\n") == t + "\n";
  }

  /** A blank line rewritten by `Reindent` is `n` spaces and a newline, one more than `n` deep. */
  lemma IndentReindentBlank(s: string, n: nat)
    requires Strip(s) == []
    ensures Reindent(s, n) == Spaces(n) + "\n"
    ensures Indent(Reindent(s, n)) == n + 1
  {
    assert Reindent(s, n) == Spaces(n) + "\n";
    assert AllSpace(Spaces(n) + "\n");
    LStripSpacesPrefix(Spaces(n) + "\n", []);
    assert Spaces(n) + "\n" + [] == Spaces(n) + "\n";
  }

  lemma StripIdempotent(s: string)
    ensures Strip(Strip(s)) == Strip(s)
  {
    var t := Strip(s);
    StripSpec(s);
    if t != [] {
      assert LStrip(t) == t;
      assert RStrip(t) == t;
    }
  }

  /** Replacing the empty pattern inserts `rep` at each of the `|s| + 1` positions. */
  lemma {:induction false} ReplaceEmptyLength(s: string, rep: string)
    ensures |Replace(s, [], rep)| == |s| + (|s| + 1) * |rep|
  {
    if s != [] {
      ReplaceEmptyLength(s[1..], rep);
    }
  }

  /** Replacing a pattern by one of the same length keeps the length. */
  lemma {:induction false} ReplaceSameLength(s: string, pat: string, rep: string)
    requires pat != [] && |pat| == |rep|
    ensures |Replace(s, pat, rep)| == |s|
    decreases |s|
  {
    if StartsWith(s, pat) {
      ReplaceSameLength(s[|pat|..], pat, rep);
    } else if s != [] {
      ReplaceSameLength(s[1..], pat, rep);
    }
  }

  /** A pattern that `s.replace(pat, rep)` clears for good: `rep` is no prefix of `pat` and
      is no longer than it, the first character of `rep` does not come back inside `pat`, and
      the first character of `pat` does not come back inside `rep`. */
  predicate ClearedBy(pat: string, rep: string) {
    pat != [] && rep != [] && |rep| <= |pat| && !StartsWith(pat, rep)
    && rep[0] !in pat[1..] && pat[0] !in rep[1..]
  }

  /** A text lacking a pattern's first character does not make the pattern occur when put
      in front of another text. */
  lemma {:induction false} ContainsAfterFree(a: string, b: string, t: string)
    requires t != [] && t[0] !in a
    ensures Contains(a + b, t) ==> Contains(b, t)
    decreases |a|
  {
    if a == [] {
      assert a + b == b;
    } else {
      StartsWithHead(a + b, t);
      assert (a + b)[1..] == a[1..] + b;
      ContainsAfterFree(a[1..], b, t);
    }
  }

  /** If the replaced text starts with a proper tail of the pattern, the text did too. */
  lemma {:induction false} ReplaceStartsWithTail(t: string, pat: string, rep: string, k: nat)
    requires ClearedBy(pat, rep) && 1 <= k <= |pat|
    ensures StartsWith(Replace(t, pat, rep), pat[k..]) ==> StartsWith(t, pat[k..])
    decreases |t|
  {
    if k == |pat| {
      assert t[..0] == pat[k..];
    } else if StartsWith(t, pat) {
      ReplaceFirst(t, pat, rep);
      assert pat[k] == pat[1..][k - 1];
      StartsWithHead(Replace(t, pat, rep), pat[k..]);
    } else if t != [] {
      ReplaceCopies(t, pat, rep);
      if t[0] == pat[k] {
        assert pat[k..] == [pat[k]] + pat[k + 1..];
        StartsWithCons(t[0], Replace(t[1..], pat, rep), pat[k + 1..]);
        ReplaceStartsWithTail(t[1..], pat, rep, k + 1);
        assert t == [t[0]] + t[1..];
        StartsWithCons(t[0], t[1..], pat[k + 1..]);
      } else {
        StartsWithHead(Replace(t, pat, rep), pat[k..]);
      }
    }
  }

  /** The replaced text starts with the pattern only where the text already did. */
  lemma ReplaceNoStart(s: string, pat: string, rep: string)
    requires ClearedBy(pat, rep) && !StartsWith(s, pat)
    ensures !StartsWith(Replace(s, pat, rep), pat)
  {
    if s != [] {
      ReplaceCopies(s, pat, rep);
      if s[0] == pat[0] {
        assert pat == [pat[0]] + pat[1..];
        StartsWithCons(s[0], Replace(s[1..], pat, rep), pat[1..]);
        ReplaceStartsWithTail(s[1..], pat, rep, 1);
        assert s == [s[0]] + s[1..];
        StartsWithCons(s[0], s[1..], pat[1..]);
      } else {
        StartsWithHead(Replace(s, pat, rep), pat);
      }
    }
  }

  /** `s.replace(pat, rep)` leaves no occurrence of a pattern it clears, not even one that
      straddles an inserted `rep`. */
  lemma {:induction false} ReplaceRemoves(s: string, pat: string, rep: string)
    requires ClearedBy(pat, rep)
    ensures !Contains(Replace(s, pat, rep), pat)
    decreases |s|
  {
    var r := Replace(s, pat, rep);
    if StartsWith(s, pat) {
      var rest := Replace(s[|pat|..], pat, rep);
      ReplaceFirst(s, pat, rep);
      ReplaceRemoves(s[|pat|..], pat, rep);
      if |pat| <= |r| {
        assert r[..|pat|][..|rep|] == rep;
      }
      assert r[1..] == rep[1..] + rest;
      ContainsAfterFree(rep[1..], rest, pat);
    } else if s != [] {
      ReplaceCopies(s, pat, rep);
      ReplaceNoStart(s, pat, rep);
      ReplaceRemoves(s[1..], pat, rep);
      assert r[1..] == Replace(s[1..], pat, rep);
    }
  }

  /** Where the pattern occurs, `s.replace(pat, rep)` holds the replacement. */
  lemma {:induction false} ReplaceInserts(s: string, pat: string, rep: string)
    requires pat != [] && Contains(s, pat)
    ensures Contains(Replace(s, pat, rep), rep)
    decreases |s|
  {
    if StartsWith(s, pat) {
      ReplaceFirst(s, pat, rep);
      assert Replace(s, pat, rep)[..|rep|] == rep;
    } else {
      ReplaceCopies(s, pat, rep);
      ReplaceInserts(s[1..], pat, rep);
      ContainsAfterPrefix([s[0]], Replace(s[1..], pat, rep), rep);
    }
  }

  /** A string that occurs somewhere holds its first character somewhere. */
  lemma {:induction false} ContainsFirst(s: string, t: string)
    requires t != [] && Contains(s, t)
    ensures t[0] in s
    decreases |s|
  {
    if StartsWith(s, t) {
      assert s[0] == t[0];
    } else {
      ContainsFirst(s[1..], t);
      assert t[0] in s[1..];
    }
  }

  /** A string occurs in every string that ends with it. */
  lemma {:induction false} EndsWithContains(s: string, t: string)
    requires EndsWith(s, t)
    ensures Contains(s, t)
    decreases |s|
  {
    if !StartsWith(s, t) {
      assert s != [];
      assert s[1..][|s| - 1 - |t|..] == s[|s| - |t|..];
      EndsWithContains(s[1..], t);
    }
  }

  /** What occurs in a text still occurs once more text is put in front of it. */
  lemma {:induction false} ContainsAfterPrefix(p: string, s: string, t: string)
    requires Contains(s, t)
    ensures Contains(p + s, t)
    decreases |p|
  {
    if p == [] {
      assert p + s == s;
    } else {
      ContainsAfterPrefix(p[1..], s, t);
      assert (p + s)[1..] == p[1..] + s;
    }
  }

  /** A non-whitespace character of a text survives `strip()`. */
  lemma NonSpaceInStrip(s: string, c: char)
    requires c in s && !IsSpace(c)
    ensures c in Strip(s)
  {
    StripSpec(s);
    var a := Indent(s);
    var t := Strip(s);
    var q :| 0 <= q < |s| && s[q] == c;
    assert a <= q < a + |t|;
    assert t[q - a] == c;
  }

  /** A non-whitespace character of a text survives `lstrip()`. */
  lemma NonSpaceInLStrip(s: string, c: char)
    requires c in s && !IsSpace(c)
    ensures c in LStrip(s)
  {
    LStripSpec(s);
    var q :| 0 <= q < |s| && s[q] == c;
    var w := |s| - |LStrip(s)|;
    assert w <= q;
    assert LStrip(s)[q - w] == c;
  }

  /** A text that starts with `p` is `p` followed by the rest. */
  lemma PrefixSplit(s: string, p: string)
    requires StartsWith(s, p)
    ensures s == p + s[|p|..]
  {
    assert s == s[..|p|] + s[|p|..];
  }

  /** A character that a prefix lacks lies after the prefix. */
  lemma AfterPrefix(s: string, p: string, c: char)
    requires StartsWith(s, p) && c in s && c !in p
    ensures c in s[|p|..]
  {
    var q :| 0 <= q < |s| && s[q] == c;
    assert q >= |p|;
    assert s[|p|..][q - |p|] == c;
  }

  /** Whatever `lstrip()` leaves is part of the text. */
  lemma LStripChars(s: string, c: char)
    requires c !in s
    ensures c !in LStrip(s) && c !in Strip(s)
  {
    LStripSpec(s);
    RStripSpec(LStrip(s));
  }

  /** No occurrence of `t` in `a + b` starts inside `a`. */
  predicate NoStartIn(a: string, b: string, t: string)
    decreases |a|
  {
    a == [] || (!StartsWith(a + b, t) && NoStartIn(a[1..], b, t))
  }

  /** `s.replace(pat, rep)` copies the text in front of the first occurrence of `pat`. */
  lemma {:induction false} ReplaceAfter(a: string, b: string, pat: string, rep: string)
    requires pat != [] && NoStartIn(a, b, pat)
    ensures Replace(a + b, pat, rep) == a + Replace(b, pat, rep)
    decreases |a|
  {
    if a == [] {
      assert a + b == b;
    } else {
      ReplaceCopies(a + b, pat, rep);
      assert (a + b)[1..] == a[1..] + b;
      ReplaceAfter(a[1..], b, pat, rep);
      AppendAssoc([a[0]], a[1..], Replace(b, pat, rep));
      assert [a[0]] + a[1..] == a;
    }
  }

  lemma ReplaceCopies(s: string, pat: string, rep: string)
    requires pat != [] && s != [] && !StartsWith(s, pat)
    ensures Replace(s, pat, rep) == [s[0]] + Replace(s[1..], pat, rep)
  {
  }

  /** Where `pat` starts, `s.replace(pat, rep)` puts `rep` in its place. */
  lemma ReplaceFirst(s: string, pat: string, rep: string)
    requires pat != [] && StartsWith(s, pat)
    ensures Replace(s, pat, rep) == rep + Replace(s[|pat|..], pat, rep)
  {
  }

  /** A pattern whose first character does not come back later in it cannot start in text
      that lacks it and run on into its own next occurrence. */
  lemma NoStartBefore(p: string, t: string, rest: string)
    requires p != [] && t != [] && t[0] !in t[1..] && !Contains(p, t)
    ensures !StartsWith(p + t + rest, t)
  {
    var l := p + t + rest;
    if |p| >= |t| {
      assert l[..|t|] == p[..|t|];
    } else {
      assert l[|p|] == t[0];
      assert t[|p|] == t[1..][|p| - 1];
    }
  }

  /** Such a pattern starts nowhere inside a text that lacks it, even with the pattern
      itself and more text after it. */
  lemma {:induction false} NoStartInFree(p: string, t: string, rest: string)
    requires t != [] && t[0] !in t[1..] && !Contains(p, t)
    ensures NoStartIn(p, t + rest, t)
    decreases |p|
  {
    if p != [] {
      NoStartBefore(p, t, rest);
      AppendAssoc(p, t, rest);
      assert (p + (t + rest))[1..] == p[1..] + (t + rest);
      NoStartInFree(p[1..], t, rest);
    }
  }

  /** Whitespace in front of a text does not make it hold a pattern that starts with
      something else. */
  lemma {:induction false} ContainsAfterSpaces(w: string, s: string, t: string)
    requires AllSpace(w) && t != [] && !IsSpace(t[0])
    ensures Contains(w + s, t) ==> Contains(s, t)
    decreases |w|
  {
    if w == [] {
      assert w + s == s;
    } else {
      StartsWithHead(w + s, t);
      assert (w + s)[1..] == w[1..] + s;
      ContainsAfterSpaces(w[1..], s, t);
    }
  }

  /** A character that is not in a pattern, put at the end of a text, does not make the text
      hold the pattern. */
  lemma {:induction false} ContainsBeforeChar(s: string, c: char, t: string)
    requires c !in t
    ensures Contains(s + [c], t) ==> Contains(s, t)
    decreases |s|
  {
    var l := s + [c];
    if |t| <= |s| {
      assert l[..|t|] == s[..|t|];
    } else if |t| == |s| + 1 {
      assert l[|s|] == c;
    }
    if s != [] {
      assert l[1..] == s[1..] + [c];
      ContainsBeforeChar(s[1..], c, t);
    } else {
      assert l[1..] == [];
    }
  }

  /** The text in front of a separator that does not occur before it. */
  lemma {:induction false} BeforeSepOf(s: string, sep: char)
    requires sep !in s
    ensures BeforeSep(s + [sep], sep) == s
    decreases |s|
  {
    if s != [] {
      assert (s + [sep])[1..] == s[1..] + [sep];
      BeforeSepOf(s[1..], sep);
      assert [s[0]] + s[1..] == s;
    } else {
      assert (s + [sep])[0] == sep;
    }
  }
}
