/**
 * The code normaliser (`normalize_code_indentation`): it drops the blank lines
 * and the `global` declarations of a generated fragment and removes, from every
 * remaining line, as many leading characters as the first remaining line is
 * indented, so that the fragment can be re-indented inside a function body.
 *
 * `Normalize` is the specification; the method `NormalizeCodeIndentation`
 * follows the source's two loops and is proved equal to it.
 */
module Normalizer {
  import opened PyText
  import opened Seqs

  /** A line survives the first loop unless it is blank or, once stripped,
      starts with `"global "`. */
  predicate IsKept(line: string) {
    Strip(line) != [] && !StartsWith(Strip(line), "global ")
  }

  /** The lines the first loop collects, in their order. */
  function KeptLines(lines: seq<string>): seq<string> {
    if lines == [] then []
    else
      var last := lines[|lines| - 1];
      KeptLines(lines[..|lines| - 1]) + (if IsKept(last) then [last] else [])
  }

  /** `len(line) - len(line.lstrip())`: the number of leading whitespace characters. */
  function Indentation(line: string): nat {
    |line| - |LStrip(line)|
  }

  /** What the second loop makes of one line: `line[baseline:]`, or `line.lstrip()`
      when the line is shorter than the baseline. */
  function Dedent(line: string, baseline: nat): string {
    if |line| >= baseline then line[baseline..] else LStrip(line)
  }

  function DedentAll(lines: seq<string>, baseline: nat): (r: seq<string>)
    ensures |r| == |lines|
    ensures forall k :: 0 <= k < |lines| ==> r[k] == Dedent(lines[k], baseline)
  {
    seq(|lines|, k requires 0 <= k < |lines| => Dedent(lines[k], baseline))
  }

  /** The normalised fragment. */
  function Normalize(code: string): string {
    var kept := KeptLines(Split(code));
    if kept == [] then [] else Join(DedentAll(kept, Indentation(kept[0])))
  }

  /** `normalize_code_indentation`: filter, take the baseline, dedent, join. */
  method NormalizeCodeIndentation(codeStr: string) returns (result: string)
    ensures result == Normalize(codeStr)
  {
    var lines := Split(codeStr);
    var validLines := FilterLines(lines);
    if validLines == [] {
      return [];
    }
    var firstLine := validLines[0];
    var baselineIndent := |firstLine| - |LStrip(firstLine)|;
    var cleanedLines := DedentLines(validLines, baselineIndent);
    result := Join(cleanedLines);
  }

  /** Step 1: the lines that are neither blank nor a `global` declaration. */
  method FilterLines(lines: seq<string>) returns (validLines: seq<string>)
    ensures validLines == KeptLines(lines)
  {
    validLines := [];
    for i := 0 to |lines|
      invariant validLines == KeptLines(lines[..i])
    {
      KeptLinesStep(lines, i);
      var line := lines[i];
      if Strip(line) == [] {
        continue;
      }
      if StartsWith(Strip(line), "global ") {
        continue;
      }
      validLines := validLines + [line];
    }
    Whole(lines);
  }

  /** One more input line adds itself to the kept lines exactly when it is kept. */
  lemma KeptLinesStep(lines: seq<string>, i: nat)
    requires i < |lines|
    ensures KeptLines(lines[..i + 1]) == KeptLines(lines[..i]) + (if IsKept(lines[i]) then [lines[i]] else [])
  {
    PrefixStep(lines, i);
  }

  /** Step 3: every line with the baseline removed. */
  method DedentLines(validLines: seq<string>, baselineIndent: nat) returns (cleanedLines: seq<string>)
    ensures cleanedLines == DedentAll(validLines, baselineIndent)
  {
    cleanedLines := [];
    ghost var target := DedentAll(validLines, baselineIndent);
    for i := 0 to |validLines|
      invariant cleanedLines == target[..i]
    {
      var line := validLines[i];
      var cleaned;
      if |line| >= baselineIndent {
        cleaned := line[baselineIndent..];
      } else {
        cleaned := LStrip(line);
      }
      assert cleaned == target[i];
      assert target[..i + 1] == target[..i] + [target[i]];
      cleanedLines := cleanedLines + [cleaned];
    }
    assert cleanedLines == target;
  }

  // ----- the kept lines -----

  /** The kept lines are exactly the input lines that are neither blank nor a
      `global` declaration. */
  lemma {:induction false} KeptLinesMembers(lines: seq<string>)
    ensures forall l :: l in KeptLines(lines) <==> l in lines && IsKept(l)
  {
    if lines != [] {
      var init := lines[..|lines| - 1];
      KeptLinesMembers(init);
      assert lines == init + [lines[|lines| - 1]];
    }
  }

  /** Filtering distributes over concatenation: the kept lines keep the input's order. */
  lemma {:induction false} KeptLinesAppend(a: seq<string>, b: seq<string>)
    ensures KeptLines(a + b) == KeptLines(a) + KeptLines(b)
    decreases |b|
  {
    if b == [] {
      assert a + b == a;
    } else {
      var init := b[..|b| - 1];
      var last := b[|b| - 1];
      assert (a + b)[..|a + b| - 1] == a + init;
      KeptLinesAppend(a, init);
    }
  }

  /** A single line contributes itself exactly when it is kept. */
  lemma KeptLinesSingle(line: string)
    ensures KeptLines([line]) == if IsKept(line) then [line] else []
  {
    assert [line][..0] == [];
  }

  /** Lines that are all kept are returned as they are. */
  lemma {:induction false} KeptLinesAllKept(lines: seq<string>)
    requires forall k :: 0 <= k < |lines| ==> IsKept(lines[k])
    ensures KeptLines(lines) == lines
  {
    if lines != [] {
      var init := lines[..|lines| - 1];
      var last := lines[|lines| - 1];
      assert IsKept(last);
      assert forall k :: 0 <= k < |init| ==> init[k] == lines[k];
      KeptLinesAllKept(init);
      InitLast(lines);
      assert KeptLines(lines) == KeptLines(init) + [last];
    }
  }

  // ----- the shape of the result -----

  /** Each kept line of `split`'s output is kept and has no newline. */
  lemma KeptLinesOfSplit(code: string)
    ensures forall k :: 0 <= k < |KeptLines(Split(code))| ==>
      IsKept(KeptLines(Split(code))[k]) && '\n' !in KeptLines(Split(code))[k]
  {
    var kept := KeptLines(Split(code));
    KeptLinesMembers(Split(code));
    forall k | 0 <= k < |kept| ensures IsKept(kept[k]) && '\n' !in kept[k] {
      assert kept[k] in kept;
    }
  }

  /** A kept line with its indentation removed is not empty, is still kept, and
      is not indented. */
  lemma LStripOfKept(line: string)
    requires IsKept(line)
    ensures LStrip(line) != [] && !IsSpace(LStrip(line)[0])
    ensures IsKept(LStrip(line)) && Indentation(LStrip(line)) == 0
  {
    StripOfLStrip(line);
    assert LStrip(line) != [] by {
      StripEmptyIffAllSpace(line);
      StripEmptyIffAllSpace(LStrip(line));
    }
  }

  /** Removing a prefix, or the leading whitespace, adds no newline. */
  lemma DedentNoNewline(line: string, baseline: nat)
    requires '\n' !in line
    ensures '\n' !in Dedent(line, baseline)
  {
    var l := Dedent(line, baseline);
    assert l == line[|line| - |l|..];
    forall i | 0 <= i < |l| ensures l[i] != '\n' {
      assert l[i] == line[|line| - |l| + i];
    }
  }

  /** Splitting the result gives back the dedented kept lines. */
  lemma SplitNormalize(code: string)
    requires KeptLines(Split(code)) != []
    ensures var kept := KeptLines(Split(code));
      Split(Normalize(code)) == DedentAll(kept, Indentation(kept[0]))
  {
    var kept := KeptLines(Split(code));
    var lines := DedentAll(kept, Indentation(kept[0]));
    KeptLinesOfSplit(code);
    forall k | 0 <= k < |lines| ensures '\n' !in lines[k] {
      DedentNoNewline(kept[k], Indentation(kept[0]));
    }
    SplitJoin(lines);
  }

  /** Nothing survives exactly when every line is blank or a `global` declaration;
      then, as for the empty input, the result is the empty string. */
  lemma NormalizeEmptyIff(code: string)
    ensures Normalize(code) == [] <==> forall l :: l in Split(code) ==> !IsKept(l)
  {
    var kept := KeptLines(Split(code));
    KeptLinesMembers(Split(code));
    if kept != [] {
      assert kept[0] in kept;
      var lines := DedentAll(kept, Indentation(kept[0]));
      assert lines[0] == LStrip(kept[0]);
      LStripOfKept(kept[0]);
      JoinStartsWithFirst(lines);
    }
  }

  /** One output line per kept line: `line[b:]` when the line is at least `b`
      long, `line.lstrip()` otherwise, `b` being the first kept line's indentation. */
  lemma NormalizeLines(code: string)
    requires KeptLines(Split(code)) != []
    ensures var kept := KeptLines(Split(code));
      var b := Indentation(kept[0]);
      var out := Split(Normalize(code));
      && |out| == |kept|
      && (forall k :: 0 <= k < |kept| && |kept[k]| >= b ==> out[k] == kept[k][b..])
      && (forall k :: 0 <= k < |kept| && |kept[k]| < b ==> out[k] == LStrip(kept[k]))
  {
    SplitNormalize(code);
  }

  /** The first line of a non-empty result is the first kept line with its
      indentation removed: it is not empty, not indented, and still kept. */
  lemma NormalizeFirstLine(code: string)
    requires KeptLines(Split(code)) != []
    ensures var kept := KeptLines(Split(code));
      var first := Split(Normalize(code))[0];
      && first == LStrip(kept[0])
      && first != [] && !IsSpace(first[0]) && Indentation(first) == 0
      && IsKept(first)
  {
    var kept := KeptLines(Split(code));
    var b := Indentation(kept[0]);
    SplitNormalize(code);
    var out := Split(Normalize(code));
    assert out[0] == Dedent(kept[0], b) == LStrip(kept[0]);
    KeptLinesOfSplit(code);
    LStripOfKept(kept[0]);
  }

  // ----- invariance under uniform indentation -----

  /** Every line of `code` prefixed with `pad`. */
  function PadEachLine(code: string, pad: string): string {
    Join(PadAll(Split(code), pad))
  }

  function PadAll(lines: seq<string>, pad: string): (r: seq<string>)
    ensures |r| == |lines|
    ensures forall k :: 0 <= k < |lines| ==> r[k] == pad + lines[k]
  {
    seq(|lines|, k requires 0 <= k < |lines| => pad + lines[k])
  }

  lemma {:induction false} KeptLinesPadded(lines: seq<string>, pad: string)
    requires AllSpace(pad)
    ensures KeptLines(PadAll(lines, pad)) == PadAll(KeptLines(lines), pad)
  {
    if lines != [] {
      var init := lines[..|lines| - 1];
      var last := lines[|lines| - 1];
      PadAllInit(lines, pad);
      KeptLinesPadded(init, pad);
      StripAfterSpace(pad, last);
      if IsKept(last) {
        PadAllSnoc(KeptLines(init), last, pad);
      } else {
        Whole(PadAll(KeptLines(init), pad));
      }
    }
  }

  lemma PadAllInit(lines: seq<string>, pad: string)
    requires lines != []
    ensures PadAll(lines, pad)[..|lines| - 1] == PadAll(lines[..|lines| - 1], pad)
    ensures PadAll(lines, pad)[|lines| - 1] == pad + lines[|lines| - 1]
  {
    Ext(PadAll(lines, pad)[..|lines| - 1], PadAll(lines[..|lines| - 1], pad));
  }

  lemma PadAllSnoc(lines: seq<string>, last: string, pad: string)
    ensures PadAll(lines + [last], pad) == PadAll(lines, pad) + [pad + last]
  {
    Ext(PadAll(lines + [last], pad), PadAll(lines, pad) + [pad + last]);
  }

  lemma DedentPadded(line: string, pad: string, baseline: nat)
    requires AllSpace(pad)
    ensures Dedent(pad + line, |pad| + baseline) == Dedent(line, baseline)
  {
    LStripAfterSpace(pad, line);
    if |line| >= baseline {
      DropAppend(pad, line, baseline);
    }
  }

  /** Padding the lines of `split`'s output adds no newline. */
  lemma SplitPadded(code: string, pad: string)
    requires '\n' !in pad
    ensures Split(PadEachLine(code, pad)) == PadAll(Split(code), pad)
  {
    var lines := Split(code);
    var padded := PadAll(lines, pad);
    forall k | 0 <= k < |padded| ensures '\n' !in padded[k] {
      assert '\n' !in lines[k];
      assert padded[k] == pad + lines[k];
    }
    SplitJoin(padded);
  }

  /** The padded kept lines, dedented by the padded baseline, are the kept lines
      dedented by the original baseline. */
  lemma DedentAllPadded(kept: seq<string>, pad: string)
    requires kept != [] && AllSpace(pad)
    ensures var padded := PadAll(kept, pad);
      DedentAll(padded, Indentation(padded[0])) == DedentAll(kept, Indentation(kept[0]))
  {
    var b := Indentation(kept[0]);
    var padded := PadAll(kept, pad);
    IndentationPadded(kept[0], pad);
    assert padded[0] == pad + kept[0];
    DedentAllShift(kept, pad, b);
  }

  /** Whitespace in front of a line adds its length to the line's indentation. */
  lemma IndentationPadded(line: string, pad: string)
    requires AllSpace(pad)
    ensures Indentation(pad + line) == |pad| + Indentation(line)
  {
    LStripAfterSpace(pad, line);
  }

  /** Padding every line and raising the baseline by the pad dedents to the same lines. */
  lemma DedentAllShift(lines: seq<string>, pad: string, b: nat)
    requires AllSpace(pad)
    ensures DedentAll(PadAll(lines, pad), |pad| + b) == DedentAll(lines, b)
  {
    var padded := PadAll(lines, pad);
    forall k | 0 <= k < |lines|
      ensures Dedent(padded[k], |pad| + b) == Dedent(lines[k], b)
    {
      DedentPadded(lines[k], pad, b);
    }
    Ext(DedentAll(padded, |pad| + b), DedentAll(lines, b));
  }

  /** Adding the same run of whitespace in front of every line leaves the
      normalised fragment unchanged. */
  lemma NormalizePadded(code: string, pad: string)
    requires AllSpace(pad) && '\n' !in pad
    ensures Normalize(PadEachLine(code, pad)) == Normalize(code)
  {
    SplitPadded(code, pad);
    KeptLinesPadded(Split(code), pad);
    var kept := KeptLines(Split(code));
    if kept != [] {
      DedentAllPadded(kept, pad);
    }
  }

  // ----- idempotence -----

  /** The empty string normalises to itself. */
  lemma NormalizeEmpty()
    ensures Normalize([]) == []
  {
    var blank: seq<string> := [[]];
    assert Split([]) == blank;
    assert blank[..0] == [];
    assert Strip([]) == [];
  }

  /** When the first kept line is not indented, the result is the kept lines joined. */
  lemma NormalizeAligned(code: string)
    requires KeptLines(Split(code)) != []
    requires Indentation(KeptLines(Split(code))[0]) == 0
    ensures Normalize(code) == Join(KeptLines(Split(code)))
  {
    var kept := KeptLines(Split(code));
    assert DedentAll(kept, 0) == kept;
  }

  /** A first line that is kept is the first kept line. */
  lemma KeptLinesHead(lines: seq<string>)
    requires lines != [] && IsKept(lines[0])
    ensures KeptLines(lines) != [] && KeptLines(lines)[0] == lines[0]
  {
    assert [lines[0]] + lines[1..] == lines;
    KeptLinesAppend([lines[0]], lines[1..]);
    KeptLinesSingle(lines[0]);
  }

  /** A second pass never re-indents: it only drops the lines of the first
      result that have become blank or a `global` declaration. */
  lemma NormalizeTwice(code: string)
    ensures Normalize(Normalize(code)) == Join(KeptLines(Split(Normalize(code))))
  {
    if KeptLines(Split(code)) == [] {
      NormalizeEmpty();
    } else {
      var once := Normalize(code);
      NormalizeFirstLine(code);
      KeptLinesHead(Split(once));
      NormalizeAligned(once);
    }
  }

  /** When the first kept line is not indented, normalising twice is the same
      as normalising once. */
  lemma NormalizeIdempotentWhenAligned(code: string)
    requires KeptLines(Split(code)) == [] || Indentation(KeptLines(Split(code))[0]) == 0
    ensures Normalize(Normalize(code)) == Normalize(code)
  {
    var kept := KeptLines(Split(code));
    if kept == [] {
      NormalizeEmpty();
    } else {
      NormalizeAligned(code);
      KeptLinesOfSplit(code);
      SplitJoin(kept);
      KeptLinesAllKept(kept);
      NormalizeAligned(Normalize(code));
    }
  }

  // ----- the slicing quirk -----

  /** A line made of whitespace and then text that neither starts nor ends
      with whitespace strips to that text. */
  lemma StripIndented(pad: string, text: string)
    requires AllSpace(pad) && text != [] && !IsSpace(text[0]) && !IsSpace(text[|text| - 1])
    ensures LStrip(pad + text) == text && Strip(pad + text) == text
  {
    LStripAfterSpace(pad, text);
    RStripBeforeSpace(text, []);
    assert text + [] == text;
  }

  /** Joined lines that all split back and are all kept are the kept lines. */
  lemma KeptOfJoin(lines: seq<string>)
    requires |lines| >= 1
    requires forall k :: 0 <= k < |lines| ==> '\n' !in lines[k] && IsKept(lines[k])
    ensures KeptLines(Split(Join(lines))) == lines
  {
    SplitJoin(lines);
    KeptLinesAllKept(lines);
  }

  lemma KeptOfTwo(a: string, b: string)
    requires '\n' !in a && '\n' !in b && IsKept(a) && IsKept(b)
    ensures KeptLines(Split(Join([a, b]))) == [a, b]
  {
    KeptOfJoin([a, b]);
  }

  /** The normal form of lines that all survive the filter and split back. */
  lemma NormalizeOfKept(lines: seq<string>, b: nat)
    requires lines != [] && KeptLines(Split(Join(lines))) == lines
    requires Indentation(lines[0]) == b
    ensures Normalize(Join(lines)) == Join(DedentAll(lines, b))
  {
  }

  /** A plain line: text that neither starts nor ends with whitespace, holds
      no newline and is not a `global` declaration. */
  predicate Plain(text: string) {
    text != [] && !IsSpace(text[0]) && !IsSpace(text[|text| - 1]) &&
    '\n' !in text && !StartsWith(text, "global ")
  }

  /** Whitespace followed by a plain line is a kept line indented by the
      whitespace. */
  lemma IndentedKept(pad: string, text: string)
    requires AllSpace(pad) && '\n' !in pad && Plain(text)
    ensures '\n' !in pad + text && IsKept(pad + text) && Indentation(pad + text) == |pad|
  {
    StripIndented(pad, text);
  }

  /** A later line that is less indented than the first, but at least as long
      as the first line's indentation, loses the first characters of its
      text: with `"    a"` first, `"  bcd"` becomes `"d"`. */
  lemma SliceCutsText(pad1: string, text1: string, pad2: string, text2: string)
    requires AllSpace(pad1) && '\n' !in pad1 && Plain(text1)
    requires AllSpace(pad2) && '\n' !in pad2 && Plain(text2)
    requires |pad2| < |pad1| <= |pad2| + |text2|
    ensures Normalize(Join([pad1 + text1, pad2 + text2]))
         == Join([text1, text2[|pad1| - |pad2|..]])
  {
    var lines := [pad1 + text1, pad2 + text2];
    IndentedKept(pad1, text1);
    IndentedKept(pad2, text2);
    KeptOfTwo(lines[0], lines[1]);
    NormalizeOfKept(lines, |pad1|);
    DedentTwo(pad1 + text1, pad2 + text2, |pad1|);
    TakeAppend(pad1, text1);
    DropAppend(pad2, text2, |pad1| - |pad2|);
  }

  /** Hence normalising is not idempotent in general: a later line whose
      text ends in whitespace and is cut exactly at its end (`"ab  "` under a
      first line `"  x"`) becomes a whitespace-only line, which a second pass
      drops. */
  lemma NormalizeNotIdempotent(pad: string, text: string, word: string, trail: string)
    requires AllSpace(pad) && '\n' !in pad && Plain(text)
    requires Plain(word) && |word| == |pad|
    requires AllSpace(trail) && '\n' !in trail && trail != []
    ensures Normalize(Join([pad + text, word + trail])) == Join([text, trail])
    ensures Normalize(Join([text, trail])) == text
    ensures Normalize(Normalize(Join([pad + text, word + trail])))
         != Normalize(Join([pad + text, word + trail]))
  {
    FirstPass(pad, text, word, trail);
    SecondPass(text, trail);
    JoinLonger(text, trail);
  }

  /** The first pass cuts the later line down to its trailing whitespace. */
  lemma FirstPass(pad: string, text: string, word: string, trail: string)
    requires AllSpace(pad) && '\n' !in pad && Plain(text)
    requires Plain(word) && |word| == |pad|
    requires AllSpace(trail) && '\n' !in trail
    ensures Normalize(Join([pad + text, word + trail])) == Join([text, trail])
  {
    var lines := [pad + text, word + trail];
    IndentedKept(pad, text);
    RaggedKept(word, trail);
    KeptOfTwo(lines[0], lines[1]);
    NormalizeOfKept(lines, |pad|);
    DedentTwo(pad + text, word + trail, |pad|);
    TakeAppend(pad, text);
    TakeAppend(word, trail);
  }

  /** Two lines at least as long as the baseline lose exactly that many characters. */
  lemma DedentTwo(a: string, b: string, baseline: nat)
    requires |a| >= baseline && |b| >= baseline
    ensures DedentAll([a, b], baseline) == [a[baseline..], b[baseline..]]
  {
    Ext(DedentAll([a, b], baseline), [a[baseline..], b[baseline..]]);
  }

  lemma JoinLonger(text: string, trail: string)
    ensures Join([text, trail]) != text
  {
    assert |Join([text, trail])| == |text| + 1 + |trail|;
  }

  /** A plain word followed by trailing whitespace is a kept line. */
  lemma RaggedKept(word: string, trail: string)
    requires Plain(word) && AllSpace(trail) && '\n' !in trail
    ensures '\n' !in word + trail && IsKept(word + trail)
  {
    RStripBeforeSpace(word, trail);
    assert (word + trail)[0] == word[0];
    assert LStrip(word + trail) == word + trail;
  }

  /** A plain line followed by a whitespace-only line normalises to the plain
      line alone. */
  lemma SecondPass(text: string, trail: string)
    requires Plain(text) && AllSpace(trail) && '\n' !in trail
    ensures Normalize(Join([text, trail])) == text
  {
    Whole(text);
    IndentedKept([], text);
    StripEmptyIffAllSpace(trail);
    SplitJoinTwo(text, trail);
    KeptThenBlank(text, trail);
    NormalizeAligned(Join([text, trail]));
    assert Join([text]) == text;
  }

  /** Of a kept line followed by a dropped one, only the first survives. */
  lemma KeptThenBlank(text: string, trail: string)
    requires IsKept(text) && !IsKept(trail)
    ensures KeptLines([text, trail]) == [text]
  {
    PairSplit(text, trail);
    KeptLinesAppend([text], [trail]);
    KeptLinesSingle(text);
    KeptLinesSingle(trail);
    Whole([text]);
  }
}
