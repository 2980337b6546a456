/**
 * The Python string operations the core relies on, as pure functions on
 * `seq<char>`: `str.isspace`, `strip`/`lstrip`/`rstrip`, `startswith`,
 * `split('\n')`, `'\n'.join`, `replace(old, "")`, `splitlines(True)` and
 * `textwrap.indent`, each with the facts about it the rest of the model uses.
 */
module PyText {
  import opened Seqs

  /** Python's `str.isspace` for one character: the Unicode White_Space
      characters together with the separators U+001C to U+001F. */
  predicate IsSpace(c: char) {
    c == ' ' || ('\t' <= c <= '\r') || ('\U{1C}' <= c <= '\U{1F}')
    || c == '\U{85}' || c == '\U{A0}' || c == '\U{1680}'
    || ('\U{2000}' <= c <= '\U{200A}') || c == '\U{2028}' || c == '\U{2029}'
    || c == '\U{202F}' || c == '\U{205F}' || c == '\U{3000}'
  }

  /** Every character is whitespace (true of the empty string). */
  predicate AllSpace(s: string) {
    forall i :: 0 <= i < |s| ==> IsSpace(s[i])
  }

  /** `s.lstrip()`: the suffix left once the leading whitespace is gone. */
  function LStrip(s: string): (r: string)
    ensures |r| <= |s| && r == s[|s| - |r|..]
    ensures r == [] || !IsSpace(r[0])
    ensures AllSpace(s[..|s| - |r|])
  {
    if s != [] && IsSpace(s[0]) then
      var r := LStrip(s[1..]);
      assert s[..|s| - |r|] == [s[0]] + s[1..][..|s[1..]| - |r|];
      r
    else s
  }

  /** `s.rstrip()`: the prefix left once the trailing whitespace is gone. */
  function RStrip(s: string): (r: string)
    ensures |r| <= |s| && r == s[..|r|]
    ensures r == [] || !IsSpace(r[|r| - 1])
    ensures AllSpace(s[|r|..])
  {
    if s != [] && IsSpace(s[|s| - 1]) then
      var r := RStrip(s[..|s| - 1]);
      assert s[|r|..] == s[..|s| - 1][|r|..] + [s[|s| - 1]];
      r
    else s
  }

  /** `s.strip()`: whitespace removed from both ends. */
  function Strip(s: string): string {
    RStrip(LStrip(s))
  }

  /** `s.startswith(prefix)`. */
  predicate StartsWith(s: string, prefix: string) {
    |prefix| <= |s| && s[..|prefix|] == prefix
  }

  /** `s.strip()` is empty exactly when `s` is whitespace only (Python's `not s.strip()`). */
  lemma StripEmptyIffAllSpace(s: string)
    ensures Strip(s) == [] <==> AllSpace(s)
  {
    var l := LStrip(s);
    if l == [] {
      assert s[..|s| - |l|] == s;
    } else {
      assert l[0] == s[|s| - |l|];
      assert l[0..] == l;
    }
  }

  /** Leading whitespace does not change what `lstrip` leaves. */
  lemma {:induction false} LStripAfterSpace(pad: string, s: string)
    requires AllSpace(pad)
    ensures LStrip(pad + s) == LStrip(s)
  {
    if pad != [] {
      assert (pad + s)[1..] == pad[1..] + s;
      LStripAfterSpace(pad[1..], s);
    } else {
      assert pad + s == s;
    }
  }

  /** Trailing whitespace after a character that is not whitespace is what `rstrip` removes. */
  lemma {:induction false} RStripBeforeSpace(s: string, pad: string)
    requires AllSpace(pad)
    requires s == [] || !IsSpace(s[|s| - 1])
    ensures RStrip(s + pad) == s
    decreases |pad|
  {
    if pad == [] {
      assert s + pad == s;
    } else {
      var init := pad[..|pad| - 1];
      assert (s + pad)[..|s + pad| - 1] == s + init;
      RStripBeforeSpace(s, init);
    }
  }

  /** Leading whitespace does not change what `strip` leaves. */
  lemma StripAfterSpace(pad: string, s: string)
    requires AllSpace(pad)
    ensures Strip(pad + s) == Strip(s)
  {
    LStripAfterSpace(pad, s);
  }

  /** `lstrip` is a no-op on its own result, so `strip` of it equals `strip` of the original. */
  lemma StripOfLStrip(s: string)
    ensures LStrip(LStrip(s)) == LStrip(s)
    ensures Strip(LStrip(s)) == Strip(s)
  {
  }

  // ----- split('\n') and '\n'.join -----

  /** `s.split('\n')`: the pieces between the newlines; never empty, `""` gives `[""]`. */
  function Split(s: string): (parts: seq<string>)
    ensures |parts| >= 1
    ensures forall k :: 0 <= k < |parts| ==> '\n' !in parts[k]
  {
    if s == [] then [[]]
    else
      var rest := Split(s[1..]);
      if s[0] == '\n' then [[]] + rest else [[s[0]] + rest[0]] + rest[1..]
  }

  /** `'\n'.join(parts)`. */
  function Join(parts: seq<string>): string {
    if parts == [] then []
    else if |parts| == 1 then parts[0]
    else parts[0] + "\n" + Join(parts[1..])
  }

  /** Joining what `split` produced gives back the original string. */
  lemma {:induction false} JoinSplit(s: string)
    ensures Join(Split(s)) == s
  {
    if s != [] {
      JoinSplit(s[1..]);
      var rest := Split(s[1..]);
      if s[0] != '\n' && |rest| > 1 {
        assert Join(rest) == rest[0] + "\n" + Join(rest[1..]);
      }
    }
  }

  /** A string without newlines is one piece. */
  lemma {:induction false} SplitNoNewline(a: string)
    requires '\n' !in a
    ensures Split(a) == [a]
  {
    if a != [] {
      SplitNoNewline(a[1..]);
      assert [a[0]] + a[1..] == a;
    }
  }

  /** Splitting at the first newline. */
  lemma {:induction false} SplitAtNewline(a: string, b: string)
    requires '\n' !in a
    ensures Split(a + "\n" + b) == [a] + Split(b)
  {
    if a == [] {
      assert a + "\n" + b == "\n" + b;
      assert ("\n" + b)[1..] == b;
    } else {
      assert (a + "\n" + b)[1..] == a[1..] + "\n" + b;
      SplitAtNewline(a[1..], b);
      assert [a[0]] + a[1..] == a;
    }
  }

  /** Splitting what `join` produced gives back the pieces, when there is at
      least one piece and none holds a newline. */
  lemma {:induction false} SplitJoin(parts: seq<string>)
    requires |parts| >= 1
    requires forall k :: 0 <= k < |parts| ==> '\n' !in parts[k]
    ensures Split(Join(parts)) == parts
  {
    if |parts| == 1 {
      SplitNoNewline(parts[0]);
    } else {
      SplitJoin(parts[1..]);
      SplitAtNewline(parts[0], Join(parts[1..]));
      HeadTail(parts);
    }
  }

  lemma SplitJoinTwo(a: string, b: string)
    requires '\n' !in a && '\n' !in b
    ensures Split(Join([a, b])) == [a, b]
  {
    SplitJoin([a, b]);
  }

  /** Every character of a piece of the split is a character of the text. */
  lemma {:induction false} SplitChars(s: string)
    ensures forall k, i :: 0 <= k < |Split(s)| && 0 <= i < |Split(s)[k]| ==> Split(s)[k][i] in s
  {
    if s != [] {
      SplitChars(s[1..]);
      var rest := Split(s[1..]);
      forall k, i | 0 <= k < |Split(s)| && 0 <= i < |Split(s)[k]| ensures Split(s)[k][i] in s {
        if s[0] != '\n' && k == 0 {
          if i > 0 {
            assert Split(s)[0][i] == rest[0][i - 1];
            assert rest[0][i - 1] in s[1..];
          }
        } else if s[0] != '\n' {
          assert Split(s)[k] == rest[k];
          assert rest[k][i] in s[1..];
        } else {
          assert Split(s)[k] == rest[k - 1];
          assert rest[k - 1][i] in s[1..];
        }
      }
    }
  }

  /** Joining one more piece appends a newline and that piece. */
  lemma {:induction false} JoinAppend(parts: seq<string>, last: string)
    requires |parts| >= 1
    ensures Join(parts + [last]) == Join(parts) + "\n" + last
  {
    if |parts| > 1 {
      assert (parts + [last])[1..] == parts[1..] + [last];
      JoinAppend(parts[1..], last);
    }
  }

  /** Joining two lines, a joined block and a last line is joining all the
      lines of the block in between. */
  lemma JoinFramed(a: string, b: string, body: seq<string>, c: string)
    requires |body| >= 1
    ensures Join([a, b, Join(body), c]) == Join([a, b] + body + [c])
  {
    Regroup(a, b, body, c);
    var tail := body + [c];
    JoinAppend(body, c);
    var mid := [b] + tail;
    ConsDrop(b, tail);
    ConsDrop(a, mid);
    assert Join([a] + mid) == a + "\n" + (b + "\n" + (Join(body) + "\n" + c));
    var j := Join(body);
    DropFour(a, b, j, c);
    assert Join([j, c]) == j + "\n" + c;
    assert Join([b, j, c]) == b + "\n" + Join([j, c]);
    assert Join([a, b, j, c]) == a + "\n" + Join([b, j, c]);
  }

  /** The first piece of a join is a prefix of it. */
  lemma {:induction false} JoinStartsWithFirst(parts: seq<string>)
    requires |parts| >= 1
    ensures StartsWith(Join(parts), parts[0])
  {
    if |parts| > 1 {
      assert Join(parts) == parts[0] + ("\n" + Join(parts[1..]));
    }
  }

  // ----- replace(old, "") -----

  /** `s.replace(pat, "")`: occurrences found by a left-to-right scan are removed,
      the scan resuming after each one (the occurrences do not overlap). */
  function RemoveAll(s: string, pat: string): string
    requires pat != []
    decreases |s|
  {
    if |s| < |pat| then s
    else if s[..|pat|] == pat then RemoveAll(s[|pat|..], pat)
    else [s[0]] + RemoveAll(s[1..], pat)
  }

  // ----- splitlines(True) and textwrap.indent -----

  /** The characters `str.splitlines` treats as line boundaries. */
  predicate IsLineBreak(c: char) {
    c == '\n' || c == '\r' || c == '\U{0B}' || c == '\U{0C}' || ('\U{1C}' <= c <= '\U{1E}')
    || c == '\U{85}' || c == '\U{2028}' || c == '\U{2029}'
  }

  /** Length of the first line of `s`, its line boundary included (`\r\n` counts as one). */
  function FirstLineLength(s: string): (n: nat)
    requires s != []
    ensures 0 < n <= |s|
  {
    if IsLineBreak(s[0]) then
      (if s[0] == '\r' && |s| > 1 && s[1] == '\n' then 2 else 1)
    else if |s| == 1 then 1
    else 1 + FirstLineLength(s[1..])
  }

  /** `s.splitlines(True)`: the lines of `s`, each keeping its boundary; `""` gives `[]`. */
  function SplitLinesKeepEnds(s: string): seq<string>
    decreases |s|
  {
    if s == [] then []
    else
      var n := FirstLineLength(s);
      [s[..n]] + SplitLinesKeepEnds(s[n..])
  }

  /** `''.join(lines)`. */
  function Concat(lines: seq<string>): string {
    if lines == [] then [] else lines[0] + Concat(lines[1..])
  }

  /** The lines `splitlines(True)` yields add up to the original text. */
  lemma {:induction false} ConcatSplitLines(s: string)
    ensures Concat(SplitLinesKeepEnds(s)) == s
    decreases |s|
  {
    if s != [] {
      var n := FirstLineLength(s);
      ConcatSplitLines(s[n..]);
      assert s[..n] + s[n..] == s;
    }
  }

  /** One line of `textwrap.indent`: the prefix goes before every line that is not whitespace only. */
  function PrefixLine(line: string, prefix: string): string {
    if AllSpace(line) then line else prefix + line
  }

  /** `textwrap.indent(text, prefix)` with its default predicate. */
  function TextwrapIndent(text: string, prefix: string): string {
    IndentLines(SplitLinesKeepEnds(text), prefix)
  }

  function IndentLines(lines: seq<string>, prefix: string): string {
    if lines == [] then [] else PrefixLine(lines[0], prefix) + IndentLines(lines[1..], prefix)
  }

  /** Each piece prefixed as `textwrap.indent` would. */
  function PrefixEach(parts: seq<string>, prefix: string): (r: seq<string>)
    ensures |r| == |parts|
    ensures forall k :: 0 <= k < |parts| ==> r[k] == PrefixLine(parts[k], prefix)
  {
    seq(|parts|, k requires 0 <= k < |parts| => PrefixLine(parts[k], prefix))
  }

  /** A line without boundaries is one line of `splitlines`, unless it is empty. */
  lemma {:induction false} FirstLineOfPlain(a: string, rest: string)
    requires a != [] || rest != []
    requires forall i :: 0 <= i < |a| ==> !IsLineBreak(a[i])
    requires rest == [] || rest[0] == '\n'
    ensures FirstLineLength(a + rest) == if rest == [] then |a| else |a| + 1
    decreases |a|
  {
    if a != [] {
      if |a + rest| > 1 {
        assert (a + rest)[1..] == a[1..] + rest;
        FirstLineOfPlain(a[1..], rest);
      }
    }
  }

  /** A newline is whitespace, so it does not change whether a line is blank. */
  lemma AllSpaceNewline(a: string)
    ensures AllSpace(a + "\n") <==> AllSpace(a)
  {
    if AllSpace(a) {
      assert forall i :: 0 <= i < |a| + 1 ==> (a + "\n")[i] == if i < |a| then a[i] else '\n';
    } else {
      var i :| 0 <= i < |a| && !IsSpace(a[i]);
      assert (a + "\n")[i] == a[i];
    }
  }

  /** `textwrap.indent` on a single line without boundaries. */
  lemma IndentSingle(a: string, prefix: string)
    requires forall i :: 0 <= i < |a| ==> !IsLineBreak(a[i])
    ensures TextwrapIndent(a, prefix) == PrefixLine(a, prefix)
  {
    if a != [] {
      Whole(a);
      FirstLineOfPlain(a, []);
      assert FirstLineLength(a) == |a|;
      assert a[|a|..] == [];
      assert SplitLinesKeepEnds(a) == [a];
      assert [a][1..] == [];
      assert IndentLines([a], prefix) == PrefixLine(a, prefix) + IndentLines([], prefix);
    }
  }

  /** `textwrap.indent` on a line without boundaries, a newline and the rest. */
  lemma IndentCons(a: string, tail: string, prefix: string)
    requires forall i :: 0 <= i < |a| ==> !IsLineBreak(a[i])
    ensures TextwrapIndent(a + "\n" + tail, prefix)
         == PrefixLine(a, prefix) + "\n" + TextwrapIndent(tail, prefix)
  {
    var first := a + "\n";
    var text := first + tail;
    Assoc(a, "\n", tail);
    FirstLineOfPlain(a, "\n" + tail);
    TakeAppend(first, tail);
    var lines := SplitLinesKeepEnds(text);
    assert lines == [first] + SplitLinesKeepEnds(tail);
    ConsDrop(first, SplitLinesKeepEnds(tail));
    AllSpaceNewline(a);
    Assoc(prefix, a, "\n");
  }

  /** The pieces after the first, prefixed, are the prefixed pieces after the first. */
  lemma PrefixEachTail(parts: seq<string>, prefix: string)
    requires parts != []
    ensures PrefixEach(parts, prefix)[1..] == PrefixEach(parts[1..], prefix)
  {
  }

  /** On text whose only line boundaries are the newlines of a join,
      `textwrap.indent` prefixes each joined piece that is not whitespace only. */
  lemma {:induction false} IndentJoin(parts: seq<string>, prefix: string)
    requires |parts| >= 1
    requires forall k, i :: 0 <= k < |parts| && 0 <= i < |parts[k]| ==> !IsLineBreak(parts[k][i])
    ensures TextwrapIndent(Join(parts), prefix) == Join(PrefixEach(parts, prefix))
  {
    if |parts| == 1 {
      IndentSingle(parts[0], prefix);
    } else {
      var rest := parts[1..];
      assert forall k, i :: 0 <= k < |rest| && 0 <= i < |rest[k]| ==> !IsLineBreak(rest[k][i]) by {
        assert forall k :: 0 <= k < |rest| ==> rest[k] == parts[k + 1];
      }
      IndentJoin(rest, prefix);
      IndentCons(parts[0], Join(rest), prefix);
      PrefixEachTail(parts, prefix);
    }
  }

  /** On text whose only line boundaries are newlines, `textwrap.indent`
      prefixes each of the lines that `split` finds. */
  lemma IndentSplit(text: string, prefix: string)
    requires forall i :: 0 <= i < |text| && text[i] != '\n' ==> !IsLineBreak(text[i])
    ensures TextwrapIndent(text, prefix) == Join(PrefixEach(Split(text), prefix))
  {
    JoinSplit(text);
    SplitChars(text);
    IndentJoin(Split(text), prefix);
  }

  /** Prefixing keeps lines free of newlines. */
  lemma PrefixEachPlain(parts: seq<string>, prefix: string)
    requires '\n' !in prefix
    requires forall k :: 0 <= k < |parts| ==> '\n' !in parts[k]
    ensures forall k :: 0 <= k < |parts| ==> '\n' !in PrefixEach(parts, prefix)[k]
  {
  }

  /** Two lines, a block and a last line, none holding a newline. */
  lemma FramedPlain(a: string, b: string, body: seq<string>, c: string)
    requires '\n' !in a && '\n' !in b && '\n' !in c
    requires forall k :: 0 <= k < |body| ==> '\n' !in body[k]
    ensures forall k :: 0 <= k < |[a, b] + body + [c]| ==> '\n' !in ([a, b] + body + [c])[k]
  {
    var lines := [a, b] + body + [c];
    forall k | 0 <= k < |lines| ensures '\n' !in lines[k] {
      if k == 0 {
        assert lines[k] == a;
      } else if k == 1 {
        assert lines[k] == b;
      } else if k < |body| + 2 {
        assert lines[k] == body[k - 2];
      } else {
        assert lines[k] == c;
      }
    }
  }

  /** Splitting two lines, an indented text and a last line, all joined. */
  lemma IndentFramed(a: string, b: string, text: string, c: string, prefix: string)
    requires '\n' !in a && '\n' !in b && '\n' !in c && '\n' !in prefix
    requires forall i :: 0 <= i < |text| && text[i] != '\n' ==> !IsLineBreak(text[i])
    ensures Split(Join([a, b, TextwrapIndent(text, prefix), c]))
         == [a, b] + PrefixEach(Split(text), prefix) + [c]
  {
    var body := PrefixEach(Split(text), prefix);
    IndentSplit(text, prefix);
    PrefixEachPlain(Split(text), prefix);
    JoinFramed(a, b, body, c);
    FramedPlain(a, b, body, c);
    SplitJoin([a, b] + body + [c]);
  }
}
