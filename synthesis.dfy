/**
 * The request for renaming logic (`get_llm_logic`): without an API key there
 * is no request; otherwise a message is composed, either the user's request
 * alone or, when there is current code, the code with the feedback on it.
 * The language model is a parameter. Its reply is cleaned: every
 * "```python" and then every "```" is removed, and the rest is stripped.
 */
module Synthesis {
  import opened Wrappers
  import opened PyText
  import opened Seqs

  const Fence := "```"
  const PythonFence := Fence + "python"

  /** `content.replace("```python", "").replace("```", "").strip()`. */
  function CleanResponse(content: string): string {
    Strip(RemoveAll(RemoveAll(content, PythonFence), Fence))
  }

  /** `pat` occurs in `s` starting at position `i`. */
  predicate Occurs(s: string, pat: string, i: int) {
    0 <= i && i + |pat| <= |s| && s[i..i + |pat|] == pat
  }

  /** No three consecutive backticks anywhere. */
  ghost predicate FenceFree(s: string) {
    forall i :: !Occurs(s, Fence, i)
  }

  // ----- replace(pat, "") -----

  lemma OccursFence(s: string, i: int)
    ensures Occurs(s, Fence, i) <==>
      0 <= i && i + 3 <= |s| && s[i] == '`' && s[i + 1] == '`' && s[i + 2] == '`'
  {
    if 0 <= i && i + 3 <= |s| && s[i] == '`' && s[i + 1] == '`' && s[i + 2] == '`' {
      assert s[i..i + 3] == Fence;
    }
  }

  /** A text that does not start with the pattern's first character keeps that
      character, and the rest is the removal applied to the rest. */
  lemma RemoveAllHead(t: string, pat: string)
    requires pat != [] && t != [] && t[0] != pat[0]
    ensures RemoveAll(t, pat) == [t[0]] + RemoveAll(t[1..], pat)
  {
    if |t| < |pat| {
      HeadTail(t);
    }
  }

  /** Removing a pattern from a text that holds no occurrence of it changes nothing. */
  lemma {:induction false} RemoveAllNoMatch(s: string, pat: string)
    requires pat != []
    requires forall i :: !Occurs(s, pat, i)
    ensures RemoveAll(s, pat) == s
    decreases |s|
  {
    if |s| >= |pat| {
      assert !Occurs(s, pat, 0);
      forall i ensures !Occurs(s[1..], pat, i) {
        assert Occurs(s[1..], pat, i) ==> Occurs(s, pat, i + 1);
      }
      RemoveAllNoMatch(s[1..], pat);
      HeadTail(s);
    }
  }

  /** Text holding no character that starts the pattern passes through, and
      the removal goes on after it. */
  lemma {:induction false} RemoveAllPlainThen(u: string, t: string, pat: string)
    requires pat != [] && pat[0] !in u
    ensures RemoveAll(u + t, pat) == u + RemoveAll(t, pat)
    decreases |u|
  {
    if u == [] {
      Whole(t);
    } else {
      DropFirstOfAppend(u, t);
      RemoveAllHead(u + t, pat);
      RemoveAllPlainThen(u[1..], t, pat);
      Assoc([u[0]], u[1..], RemoveAll(t, pat));
      HeadTail(u);
    }
  }

  /** A leading occurrence is removed. */
  lemma RemoveAllPrefix(pat: string, t: string)
    requires pat != []
    ensures RemoveAll(pat + t, pat) == RemoveAll(t, pat)
  {
    TakeAppend(pat, t);
  }

  /** The output of removing every "```" holds none. */
  lemma {:induction false} RemoveFenceFree(s: string)
    ensures FenceFree(RemoveAll(s, Fence))
    decreases |s|
  {
    var r := RemoveAll(s, Fence);
    if |s| < 3 {
      forall i ensures !Occurs(r, Fence, i) {
        OccursFence(r, i);
      }
    } else if s[..3] == Fence {
      RemoveFenceFree(s[3..]);
    } else {
      var rest := RemoveAll(s[1..], Fence);
      RemoveFenceFree(s[1..]);
      assert r == [s[0]] + rest;
      OccursFence(s, 0);
      assert s[..3] == s[0..0 + |Fence|];
      // the window at the start of the output
      if s[1] != '`' {
        RemoveAllHead(s[1..], Fence);
        assert r[1] == s[1];
      } else if s[2] != '`' {
        var t := s[1..];
        if |t| >= 3 {
          OccursFence(t, 0);
          assert t[..3] == t[0..0 + |Fence|];
          RemoveAllHead(t[1..], Fence);
        }
        assert |r| >= 3 ==> r[2] == s[2];
      } else {
        assert s[0] != '`';
      }
      OccursFence(r, 0);
      // the later windows are windows of `rest`
      forall i | i >= 1 ensures !Occurs(r, Fence, i) {
        OccursFence(r, i);
        OccursFence(rest, i - 1);
      }
    }
  }

  /** A piece of a text free of "```" is free of it. */
  lemma SliceFenceFree(s: string, a: nat, b: nat)
    requires a <= b <= |s| && FenceFree(s)
    ensures FenceFree(s[a..b])
  {
    forall i ensures !Occurs(s[a..b], Fence, i) {
      OccursFence(s[a..b], i);
      OccursFence(s, a + i);
    }
  }

  // ----- strip -----

  /** `strip` leaves a piece of its argument. */
  lemma StripSlice(x: string)
    ensures exists a: nat, b: nat :: a <= b <= |x| && Strip(x) == x[a..b]
  {
    var l := LStrip(x);
    var r := RStrip(l);
    var a := |x| - |l|;
    assert r == x[a..a + |r|];
  }

  /** A text that neither starts nor ends with whitespace is its own `strip`. */
  lemma StripStripped(s: string)
    requires Stripped(s)
    ensures Strip(s) == s
  {
    if s != [] {
      assert LStrip(s) == s;
    }
  }

  /** `lstrip` of a text that is not all whitespace ignores what follows. */
  lemma {:induction false} LStripAppend(s: string, t: string)
    requires !AllSpace(s)
    ensures LStrip(s + t) == LStrip(s) + t
  {
    if IsSpace(s[0]) {
      DropFirstOfAppend(s, t);
      var j :| 0 <= j < |s| && !IsSpace(s[j]);
      assert s[1..][j - 1] == s[j];
      LStripAppend(s[1..], t);
    }
  }

  /** Trailing whitespace does not change what `rstrip` leaves. */
  lemma {:induction false} RStripTrailing(y: string, pad: string)
    requires AllSpace(pad)
    ensures RStrip(y + pad) == RStrip(y)
    decreases |pad|
  {
    if pad == [] {
      Whole(y);
    } else {
      DropLastOfAppend(y, pad);
      RStripTrailing(y, pad[..|pad| - 1]);
    }
  }

  /** Newlines around a text do not change its `strip`. */
  lemma StripFramed(code: string)
    ensures Strip("\n" + code + "\n") == Strip(code)
  {
    Assoc("\n", code, "\n");
    LStripNewline();
    LStripAfterSpace("\n", code + "\n");
    if AllSpace(code) {
      StripBlankNewline(code);
    } else {
      LStripAppend(code, "\n");
      RStripTrailing(LStrip(code), "\n");
    }
  }

  lemma StripBlankNewline(code: string)
    requires AllSpace(code)
    ensures LStrip(code + "\n") == [] && LStrip(code) == []
  {
    LStripAfterSpace(code, "\n");
    LStripAfterSpace(code, []);
    Whole(code);
    LStripNewline();
  }

  lemma LStripNewline()
    ensures AllSpace("\n") && LStrip("\n") == []
  {
    LStripSpaceChar('\n');
  }

  lemma LStripSpaceChar(c: char)
    requires IsSpace(c)
    ensures AllSpace([c]) && LStrip([c]) == []
  {
    assert [c][1..] == [];
  }

  // ----- what the cleanup guarantees -----

  /** The cleaned reply holds no "```". */
  lemma CleanNoFence(content: string)
    ensures FenceFree(CleanResponse(content))
  {
    var x := RemoveAll(RemoveAll(content, PythonFence), Fence);
    RemoveFenceFree(RemoveAll(content, PythonFence));
    StripSlice(x);
    var a: nat, b: nat :| a <= b <= |x| && Strip(x) == x[a..b];
    SliceFenceFree(x, a, b);
  }

  /** Neither starts nor ends with whitespace: Python's `s == s.strip()`. */
  predicate Stripped(s: string) {
    s == [] || (!IsSpace(s[0]) && !IsSpace(s[|s| - 1]))
  }

  /** The cleaned reply neither starts nor ends with whitespace. */
  lemma CleanStripped(content: string)
    ensures Stripped(CleanResponse(content))
  {
    var l := LStrip(RemoveAll(RemoveAll(content, PythonFence), Fence));
    var r := RStrip(l);
    if r != [] {
      assert r[0] == l[0];
    }
  }

  /** A text free of "```" contains no "```python" either. */
  lemma NoPythonFence(s: string)
    requires FenceFree(s)
    ensures forall i :: !Occurs(s, PythonFence, i)
  {
    forall i ensures !Occurs(s, PythonFence, i) {
      PythonFenceStartsFence(s, i);
    }
  }

  lemma PythonFenceStartsFence(s: string, i: int)
    ensures Occurs(s, PythonFence, i) ==> Occurs(s, Fence, i)
  {
    if 0 <= i && i + |PythonFence| <= |s| {
      assert s[i..i + 3] == s[i..i + |PythonFence|][..3];
      TakeAppend(Fence, "python");
    }
  }

  /** Cleaning a cleaned reply changes nothing. */
  lemma CleanIdempotent(content: string)
    ensures CleanResponse(CleanResponse(content)) == CleanResponse(content)
  {
    var r := CleanResponse(content);
    CleanNoFence(content);
    CleanStripped(content);
    NoPythonFence(r);
    RemoveAllNoMatch(r, PythonFence);
    RemoveAllNoMatch(r, Fence);
    StripStripped(r);
  }

  /** A reply without backticks and without surrounding whitespace is kept as it is. */
  lemma CleanPlain(content: string)
    requires '`' !in content
    requires Stripped(content)
    ensures CleanResponse(content) == content
  {
    RemoveAllPlainThen(content, [], PythonFence);
    RemoveAllPlainThen(content, [], Fence);
    Whole(content);
    StripStripped(content);
  }

  /** The usual reply, code in a Python fence, is cleaned to the stripped code. */
  lemma CleanFenced(code: string)
    requires '`' !in code
    ensures CleanResponse(PythonFence + ("\n" + code + "\n" + Fence)) == Strip(code)
  {
    var u := "\n" + code + "\n";
    assert '`' !in u;
    DropPythonFence(u);
    DropClosingFence(u);
    StripFramed(code);
  }

  /** The opening fence goes, and the closing one is too short to match it. */
  lemma DropPythonFence(u: string)
    requires '`' !in u
    ensures RemoveAll(PythonFence + (u + Fence), PythonFence) == u + Fence
  {
    RemoveAllPrefix(PythonFence, u + Fence);
    RemoveAllPlainThen(u, Fence, PythonFence);
    assert RemoveAll(Fence, PythonFence) == Fence;
  }

  /** Then the closing fence goes. */
  lemma DropClosingFence(u: string)
    requires '`' !in u
    ensures RemoveAll(u + Fence, Fence) == u
  {
    RemoveAllPlainThen(u, Fence, Fence);
    RemoveAllPrefix(Fence, []);
    Whole(u);
    Whole(Fence);
  }

  // ----- the request -----

  /** Python's `if current_code:`: there is code and it is not empty. */
  predicate Refines(currentCode: Option<string>) {
    currentCode.Some? && currentCode.value != []
  }

  const Margin := "        "
  const FreshIntro := "User Request: "
  const CodeIntro := "\n" + Margin + "--- CURRENT CODE ---\n" + Margin
  const FeedbackIntro := "\n" + Margin + "--------------------\n" + Margin + "USER FEEDBACK / REFINEMENT REQUEST:\n" + Margin
  const Closing := "\n" + Margin + "\n" + Margin + "Instruction: Update the Current Code to satisfy the User Feedback.\n" + Margin

  /** The human message: the request alone, or the current code followed by the
      feedback and the instruction to update the code, each part in its place. */
  function HumanContent(userRequest: string, currentCode: Option<string>): (content: string)
    ensures !Refines(currentCode) ==>
      && |content| == |FreshIntro| + |userRequest|
      && content[..|FreshIntro|] == FreshIntro
      && content[|FreshIntro|..] == userRequest
    ensures Refines(currentCode) ==>
      var code := currentCode.value;
      var i, j, k, l := |CodeIntro|, |CodeIntro| + |code|, |CodeIntro| + |code| + |FeedbackIntro|,
                        |CodeIntro| + |code| + |FeedbackIntro| + |userRequest|;
      && |content| == l + |Closing|
      && content[..i] == CodeIntro
      && content[i..j] == code
      && content[j..k] == FeedbackIntro
      && content[k..l] == userRequest
      && content[l..] == Closing
  {
    if Refines(currentCode) then
      var code := currentCode.value;
      FiveParts(CodeIntro, code, FeedbackIntro, userRequest, Closing);
      CodeIntro + code + FeedbackIntro + userRequest + Closing
    else
      TakeAppend(FreshIntro, userRequest);
      FreshIntro + userRequest
  }

  /** `get_llm_logic`: no API key, no code; otherwise the model's reply to the
      composed message, cleaned, or the exception `llm.invoke` raised (a rejected
      key, a network error), which leaves the function. `llm` stands for the
      model invoked with the fixed system instructions. */
  function GetLlmLogic(userRequest: string, apiKey: string, currentCode: Option<string>,
                       llm: string -> Result<string, string>): (code: Result<Option<string>, string>)
    ensures code == Success(None) <==> apiKey == []
    ensures code.Failure? <==> apiKey != [] && llm(HumanContent(userRequest, currentCode)).Failure?
    ensures code.Failure? ==> code.error == llm(HumanContent(userRequest, currentCode)).error
    ensures code.Success? && code.value.Some? ==> FenceFree(code.value.value) && Stripped(code.value.value)
  {
    if apiKey == [] then Success(None)
    else
      match llm(HumanContent(userRequest, currentCode))
      case Failure(e) => Failure(e)
      case Success(reply) =>
        CleanNoFence(reply);
        CleanStripped(reply);
        Success(Some(CleanResponse(reply)))
  }

  /** With a key and a reply, the code is the cleaned reply to the composed
      message, and it is a fixed point of the cleanup. */
  lemma GetLlmLogicClean(userRequest: string, apiKey: string, currentCode: Option<string>,
                         llm: string -> Result<string, string>)
    requires apiKey != [] && llm(HumanContent(userRequest, currentCode)).Success?
    ensures var reply := llm(HumanContent(userRequest, currentCode)).value;
      var code := GetLlmLogic(userRequest, apiKey, currentCode, llm);
      && code == Success(Some(CleanResponse(reply)))
      && CleanResponse(CleanResponse(reply)) == CleanResponse(reply)
  {
    CleanIdempotent(llm(HumanContent(userRequest, currentCode)).value);
  }
}
