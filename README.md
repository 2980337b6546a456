# Agentic FASTA renamer: the code path from generated logic to renamed records

The app is a small Streamlit tool. A user uploads a FASTA file and describes, in
words, how the record identifiers should change. A language model then writes a
short Python fragment that sets `new_id` and `new_description` from
`original_id` and `original_description`.

Before the fragment runs, it is normalised:
- blank lines and `global` declarations are dropped;
- the indentation of the first remaining line is removed from every line.

The fragment is then placed inside a generated function
`dynamic_modifier(original_id, original_description)` and compiled with
`exec`. The function is then used in two ways:
- a preview calls it on the first five records and shows a table;
- "Apply to All" calls it on every record and keeps only the records whose
  call did not raise.

This project models that path in Dafny and proves what it does:

- `PyText` models the Python string built-ins involved: `strip`, `lstrip`,
  `rstrip`, `split('\n')`, `'\n'.join`, `replace(pat, '')`, `splitlines(True)`
  and `textwrap.indent`.
- `Normalizer` models `normalize_code_indentation`, with its two loops.
- `Records` models the Biopython record objects. They are a class whose
  `id`, `description` and `name` fields the batch step overwrites.
- `Evaluator` models the generated wrapper and `test_logic_safely`.
  - `exec` is a `Builder` parameter. It either rejects the source with a
    message or yields a `Fragment`: what the compiled body does on one
    identifier and description.
  - The `return` line's `locals().get(..)` fallback is modelled exactly, in
    `CallModifier`.
  - Also here: the preview's five-record sample and its warning check.
- `BatchApplier` models the "Apply to All" loop, in two forms:
  - a value-level specification (`BatchApply`, `Survivors`);
  - a method over the record objects, proved against that specification.
- `Synthesis` models `get_llm_logic`:
  - the missing-key check;
  - the two forms of the prompt;
  - the fence cleanup of the reply.
  The model call itself is an `llm` parameter.
- `Seqs` and `Wrappers` are generic helpers: facts about slicing and
  concatenation, and `Option`/`Result`.

Normalisation is not idempotent. A later line that is less indented than the
first kept line, but at least as long as the first line's indentation, is cut
inside its text. When the cut leaves only
trailing whitespace, a second pass drops that line (`NormalizeNotIdempotent`).
The model keeps this behaviour as written. It also proves two things:
- a second pass only filters lines (`NormalizeTwice`);
- normalising is idempotent once the first kept line has no indentation
  (`NormalizeIdempotentWhenAligned`).

## Model

| member | source | states |
|---|---|---|
| PyText.Strip | app.py:125 | definition: `rstrip` of `lstrip` |
| PyText.Join | app.py:145 | definition: `'\n'.join(parts)` |
| PyText.RemoveAll | app.py:111 | definition: `replace(pat, "")`, scanning left to right and resuming after each removed occurrence |
| PyText.SplitLinesKeepEnds | app.py:158 | definition: `splitlines(True)`, each line with its boundary, `\r\n` counted as one |
| PyText.TextwrapIndent | app.py:158 | definition: `textwrap.indent` with its default predicate: the prefix before each line that is not whitespace only |
| PyText.LStrip | app.py:136 | `lstrip` leaves a suffix that is empty or starts with a non-whitespace character, and everything it removed is whitespace |
| PyText.RStrip | app.py:111 | `rstrip` leaves a prefix that is empty or ends with a non-whitespace character, and everything it removed is whitespace |
| PyText.StripEmptyIffAllSpace | app.py:125 | `not line.strip()` holds exactly when the line is whitespace only |
| PyText.LStripAfterSpace | app.py:143 | leading whitespace does not change what `lstrip` leaves |
| PyText.StripAfterSpace | app.py:125-127 | leading whitespace does not change what `strip` leaves |
| PyText.StripOfLStrip | app.py:143 | `lstrip` is idempotent, and `strip` of its result equals `strip` of the original |
| PyText.Split | app.py:119 | `split('\n')` yields at least one piece, and no piece holds a newline |
| PyText.JoinSplit | app.py:119 | `'\n'.join(s.split('\n'))` gives back `s` |
| PyText.SplitJoin | app.py:145 | splitting a join of one or more newline-free pieces gives back the pieces |
| PyText.SplitChars | app.py:119 | every character of a split piece is a character of the text |
| PyText.JoinStartsWithFirst | app.py:145 | a join starts with its first piece |
| PyText.FirstLineLength | app.py:158 | the first line of `splitlines(True)`, with its boundary, is non-empty and fits in the text |
| PyText.ConcatSplitLines | app.py:158 | the lines `splitlines(True)` yields add up to the text |
| PyText.IndentSingle | app.py:158 | `textwrap.indent` on one line without boundaries prefixes it unless it is whitespace only |
| PyText.IndentCons | app.py:158 | when the first line holds no line boundary, `textwrap.indent` distributes over the newline that ends it |
| PyText.IndentJoin | app.py:158 | on joined pieces that hold no line boundary, `textwrap.indent` prefixes each piece that is not whitespace only |
| PyText.IndentSplit | app.py:158 | on text whose only line boundaries are `\n`, `textwrap.indent` prefixes each line of the split that is not whitespace only |
| PyText.IndentFramed | app.py:161-166 | when the text has no line boundary other than `\n` and the fixed lines and the prefix hold no newline, a header line, an import line, the indented text and a last line, once joined, split back into those lines and the text's prefixed lines |
| Normalizer.IsKept | app.py:125-128 | definition: a line survives the filter when its stripped form is non-empty and does not start with `global ` |
| Normalizer.KeptLines | app.py:123-129 | definition: the surviving lines, in input order |
| Normalizer.Indentation | app.py:136 | definition: the length of a line minus the length of its `lstrip` |
| Normalizer.Dedent | app.py:140-143 | definition: `line[baseline:]` when the line is at least the baseline long, else `line.lstrip()` |
| Normalizer.Normalize | app.py:114-145 | definition: `""` when no line is kept, else the kept lines dedented by the first one's indentation and joined |
| Normalizer.NormalizeCodeIndentation | app.py:114-145 | the method computes `Normalize`: kept lines, baseline from the first of them, dedent, join; `""` when nothing is kept |
| Normalizer.FilterLines | app.py:119-129 | the first loop collects exactly the lines that are neither blank nor `global` declarations, in order |
| Normalizer.DedentLines | app.py:139-143 | the second loop makes each line `line[baseline:]`, or `line.lstrip()` when it is shorter than the baseline |
| Normalizer.DedentAll | app.py:139-143 | definition: `Dedent` applied to each kept line with the baseline, in order; the closed form that `Normalizer.DedentLines` is proved against |
| Normalizer.KeptLinesMembers | app.py:124-129 | a line is collected if and only if it occurs in the input and is kept |
| Normalizer.KeptLinesAppend | app.py:124-129 | the filter distributes over concatenation |
| Normalizer.KeptLinesAllKept | app.py:124-129 | the filter leaves a list of kept lines unchanged |
| Normalizer.KeptLinesOfSplit | app.py:119-129 | every collected line is kept and holds no newline |
| Normalizer.LStripOfKept | app.py:135-136 | a kept line stripped of its indentation is non-empty, still kept and has indentation 0 |
| Normalizer.DedentNoNewline | app.py:139-143 | dedenting adds no newline |
| Normalizer.SplitNormalize | app.py:131-145 | splitting the result gives back the dedented kept lines |
| Normalizer.NormalizeEmptyIff | app.py:131-132 | the result is `""` exactly when no line of the input is kept |
| Normalizer.NormalizeLines | app.py:134-145 | one output line per kept line: cut at the baseline when long enough, otherwise `lstrip`ped |
| Normalizer.NormalizeFirstLine | app.py:134-141 | the first output line is the first kept line without its indentation, and it is kept and unindented |
| Normalizer.PadAll | app.py:136-143 | definition: every line with `pad` in front, the indented input that `Normalizer.NormalizePadded` is stated over |
| Normalizer.KeptLinesPadded | app.py:124-129 | adding whitespace in front of every line does not change which lines are kept |
| Normalizer.SplitPadded | app.py:119 | the split of a padded text is the padded split |
| Normalizer.DedentAllPadded | app.py:134-143 | padding every kept line shifts the baseline by the pad, so the dedented lines are unchanged |
| Normalizer.NormalizePadded | app.py:114-145 | indenting every line of the fragment by the same whitespace does not change the result |
| Normalizer.NormalizeEmpty | app.py:131-132 | the empty fragment normalises to `""` |
| Normalizer.NormalizeAligned | app.py:134-145 | when the first kept line is not indented, the result is the kept lines joined |
| Normalizer.NormalizeTwice | app.py:114-145 | a second pass over a result only filters its lines |
| Normalizer.NormalizeIdempotentWhenAligned | app.py:114-145 | when the first kept line is not indented, normalising twice equals normalising once |
| Normalizer.StripIndented | app.py:125-136 | whitespace in front of a word is what `lstrip` and `strip` remove |
| Normalizer.KeptOfJoin | app.py:119-129 | joined newline-free kept lines are all collected again |
| Normalizer.NormalizeOfKept | app.py:131-145 | the result of lines that all survive the filter is their join, dedented by the first line's indentation |
| Normalizer.IndentedKept | app.py:125-136 | whitespace followed by a plain word is a kept line whose indentation is the whitespace |
| Normalizer.SliceCutsText | app.py:140-141 | a later line that is less indented than the first, but at least as long as the first line's indentation, loses the start of its text |
| Normalizer.NormalizeNotIdempotent | app.py:114-145 | a two-line fragment whose second line is cut down to its trailing whitespace normalises to a text that a second pass changes |
| Normalizer.FirstPass | app.py:139-145 | a later line cut exactly at the end of its word keeps only its trailing whitespace |
| Normalizer.SecondPass | app.py:124-132 | a plain line followed by a whitespace-only line normalises to the plain line |
| Normalizer.KeptThenBlank | app.py:124-129 | a kept line followed by a dropped line leaves the kept line alone |
| Records.SeqRecord.constructor | app.py:238 | a new record holds the given identifier, description, name and sequence |
| Records.Views | app.py:177-179 | the snapshot of a list of records has one value per record, in order |
| Records.DistinctAt | app.py:238 | in a list of distinct record objects, the object at one position occurs nowhere else |
| Evaluator.LocalOr | app.py:165 | definition: the text `locals().get('<name>', <param>)` |
| Evaluator.WrapperSource | app.py:161-166 | definition: the header, `import re`, the indented logic and the `return` line joined by newlines |
| Evaluator.Report | app.py:177-192 | definition: one row per sample record, built in order |
| Evaluator.Warns | app.py:295 | definition: some row's new id is "ERROR" |
| Evaluator.CallModifier | app.py:165 | a raising body gives its error; otherwise `new_id` and `new_description` when bound and the parameters' values when not, and a body's own `return` is taken as is |
| Evaluator.WrapperLinesPlain | app.py:161-166 | the fixed lines of the wrapper hold no newline |
| Evaluator.WrapperLines | app.py:155-166 | the generated source is the header, `import re`, each normalised line indented by four spaces unless it is blank, and the `return` line |
| Evaluator.WrapperFirstStatement | app.py:136-166 | the first statement of the generated body is four spaces followed by the first kept line without its indentation |
| Evaluator.FirstLinePrefixed | app.py:136-158 | the first normalised line, indented, is four spaces followed by the first kept line without its indentation |
| Evaluator.RowFor | app.py:177-192 | a preview row keeps the original id; a successful call gives the new id and "Changed" exactly when it differs, and a raising call gives "ERROR" and the exception text |
| Evaluator.ReportRows | app.py:177-192 | exactly one row per sample record, in order; a raising record does not stop the later ones |
| Evaluator.FailureWarns | app.py:187-192 | a sample record whose call raises makes the preview warn |
| Evaluator.ErrorRowFlagged | app.py:182-192 | a row reading "ERROR" belongs to a sample whose call raised or returned the id "ERROR" |
| Evaluator.SyntaxErrorMessage | app.py:194-195 | the message starts with "Syntax Error: " and ends with the generated source |
| Evaluator.LookupOrEmpty | app.py:151-152 | a missing lookup map is the empty map |
| Evaluator.TestLogicSafely | app.py:147-197 | a build error gives no rows and the syntax-error message; otherwise no message and one row per sample record |
| Evaluator.ReportSamples | app.py:177-192 | the loop over the samples produces the report of their current values |
| Evaluator.HasErrorRow | app.py:295 | on a table with rows, the check reports true exactly when some row's new id is "ERROR"; it requires a row, because an empty frame has no `New ID` column |
| Evaluator.SampleSize | app.py:289 | `records[:5]` holds five records, or all of them when there are fewer |
| Evaluator.PreviewSample | app.py:289 | the dry run sees the first five records only, and a successful build gives one row for each of them |
| Evaluator.Preview | app.py:289-298 | a build error is shown as the error; an empty upload shows the empty table and then fails on its missing column; otherwise the table of one to five rows, with the warning exactly when a row reads "ERROR" |
| BatchApplier.BatchApply | app.py:332-340 | definition: the rewritten records whose call succeeds, in input order |
| BatchApplier.Survivors | app.py:332-340 | definition: the positions of the input records that reach the output |
| BatchApplier.Rewrite | app.py:333-338 | a record is written out exactly when its call succeeds, with the new id and description, an empty name and its sequence unchanged |
| BatchApplier.Updated | app.py:333-340 | a raising call leaves the record object as it was; a successful one leaves it as written out |
| BatchApplier.SurvivorsStep | app.py:332-340 | one more record adds its position exactly when its call succeeds |
| BatchApplier.SurvivorsExact | app.py:332-340 | the kept positions are strictly increasing, in range, and are exactly those whose call succeeds |
| BatchApplier.BatchApplyAt | app.py:332-340 | the output has one record per kept position, in order, each as rewritten from that input record |
| BatchApplier.OutputKeepsSequences | app.py:335-338 | every output record has an empty name and the sequence of the input record it comes from |
| BatchApplier.AllSucceed | app.py:332-338 | when every call succeeds, every record is written out, in order |
| BatchApplier.AllSurvive | app.py:332-338 | when every call succeeds, every position is kept |
| BatchApplier.AllFail | app.py:339-340 | when every call raises, nothing is written out |
| BatchApplier.UntouchedFragment | app.py:332-338 | a body that binds neither name, leaves both parameters unchanged and does not return writes every record out with its id and description as they were |
| BatchApplier.PreviewPredictsBatch | app.py:177-340 | a sample record whose call raises shows "ERROR" and the exception text and is dropped by the batch step; one whose call succeeds is kept and shows the id it is written out with; so a row reads "ERROR" exactly when the record is dropped or written out under the id "ERROR" |
| BatchApplier.ApplyModifier | app.py:332-340 | the loop's output is the specification applied to the records' values beforehand, every record object is updated or untouched as its call decides, and output position j holds the very input object at the j-th surviving position, so the output aliases the mutated records |
| BatchApplier.CollectRenamed | app.py:332-340 | the output holds the record objects at the kept positions, in order, and every object holds its updated value |
| BatchApplier.Visit | app.py:333-340 | one iteration updates the current record and appends it when its call succeeds |
| BatchApplier.PickedRecords | app.py:332-340 | the values of the objects picked at the kept positions are the specification's output |
| BatchApplier.RenameRecord | app.py:333-340 | the record object is rewritten exactly when its call succeeds, and is left untouched otherwise |
| BatchApplier.ApplyToAll | app.py:313-340 | a build error propagates and changes no record; otherwise the loop runs as `ApplyModifier` states |
| Synthesis.CleanResponse | app.py:111 | definition: remove every "```python", then every "```", then strip |
| Synthesis.OccursFence | app.py:111 | a fence occurs where three backticks stand in a row |
| Synthesis.RemoveAllNoMatch | app.py:111 | `replace` leaves text without the pattern unchanged |
| Synthesis.RemoveAllPlainThen | app.py:111 | a prefix without the pattern's first character passes through `replace` unchanged |
| Synthesis.RemoveAllPrefix | app.py:111 | `replace` removes a leading occurrence of the pattern |
| Synthesis.RemoveFenceFree | app.py:111 | after `replace("```", "")` no three backticks stand in a row |
| Synthesis.SliceFenceFree | app.py:111 | a slice of fence-free text is fence-free |
| Synthesis.StripSlice | app.py:111 | `strip` returns a slice of its argument |
| Synthesis.StripStripped | app.py:111 | `strip` leaves text that neither starts nor ends with whitespace unchanged |
| Synthesis.StripFramed | app.py:111 | a newline on each side does not change what `strip` leaves |
| Synthesis.CleanNoFence | app.py:111 | the cleaned reply holds no fence |
| Synthesis.CleanStripped | app.py:111 | the cleaned reply neither starts nor ends with whitespace |
| Synthesis.NoPythonFence | app.py:111 | fence-free text holds no "```python" either |
| Synthesis.CleanIdempotent | app.py:111 | cleaning a cleaned reply changes nothing |
| Synthesis.CleanPlain | app.py:111 | a reply without backticks and without surrounding whitespace is kept as is |
| Synthesis.CleanFenced | app.py:111 | a reply that is one fenced Python block cleans to the stripped code inside it |
| Synthesis.HumanContent | app.py:89-101 | without current code the message is "User Request: " followed by the request; with non-empty current code it is the code header, the code, the feedback header, the request and the closing instruction, each at its offset |
| Synthesis.GetLlmLogic | app.py:81-112 | no code exactly when the key is empty; with a key, the exception of the model call when it raises, and otherwise code that holds no fence and has no surrounding whitespace |
| Synthesis.GetLlmLogicClean | app.py:87-112 | with a key and a reply, the code is the cleaned reply to the human message, and it is a fixed point of the cleanup |

## Left out

- The Streamlit interface is not modelled: page layout, sidebar, buttons, file
  uploaders, spinners, `st.rerun` and session state. Only the values those
  steps pass on are modelled.
- Showing messages and tables (`st.error`, `st.warning`, `st.success`,
  `st.dataframe`) is not modelled. `Evaluator.Preview` returns what would be
  shown instead.
- The model call (`ChatGoogleGenerativeAI`, `llm.invoke`) is network I/O. It is
  the `llm` parameter of `Synthesis.GetLlmLogic`, which returns the reply or
  the text of the exception it raises.
- Synthesis.GetLlmLogic: models an exception of the model call as a `Failure`
  result. In the source it leaves `get_llm_logic` and ends the Streamlit run.
- The system prompt (`SYSTEM_PROMPT`) is part of that call's fixed input. It is
  not repeated in the model.
- `exec` is the `Builder` parameter: a compiler the model cannot see.
- What the generated body computes is the `Fragment` it yields, and a
  `Fragment` depends only on its two arguments. State that a body keeps
  between calls is not modelled. One example is entries it writes into
  `lookup_map`, which the preview scope (app.py:169) and the batch scope
  (app.py:328) share within one run. `BatchApplier.PreviewPredictsBatch` rests
  on this.
- The two `exec` scopes differ. The preview binds `re` to `pd.NA`; the batch
  step does not. The model gives both the same `Builder`: the body's
  `import re` rebinds the name inside the function either way.
- A body whose result cannot be unpacked into two values raises in the source.
  The model covers this only as one more failing `Fragment`.
- Values that are not strings are not modelled. The source would write them
  into the record.
- FASTA parsing and writing (`SeqIO.parse`, `SeqIO.write`) are not modelled. The
  records arrive as objects and the output is the list of kept objects.
- Reading the lookup CSV (app.py:226-234) is not modelled. The lookup map is
  passed in as a `map`.
- The context line appended to the first request when a lookup map is loaded
  (app.py:257-259) is not modelled. It is interface code and needs decimal
  formatting of the map's size.
- The downloadable script is not modelled: `BASE_TEMPLATE`, `repr(lookup_map)`
  and the download buttons.
- `template_rename.py`, a separate command-line renaming script whose
  `modify_header` is the identity, is not part of this model.
- `verify_model_id.py`, a one-off check of model names against the provider,
  is not part of this model.
- BatchApplier.ApplyModifier: requires that the record objects are distinct.
  `SeqIO.parse` yields a fresh object per record, but the loop would also run
  on a list holding one object twice.
- BatchApplier.ApplyToAll: models the exception that `exec` raises outside any
  `try` as a `Failure` result. In the source it propagates to Streamlit.
- Evaluator.WrapperLines: requires that the normalised fragment has no line
  boundary other than `\n`. `textwrap.indent` also splits at `\r`, form feeds
  and the other `splitlines` boundaries. `TextwrapIndent` itself models all of
  them.
- Evaluator.WrapperFirstStatement: requires, like `Evaluator.WrapperLines`,
  that the normalised fragment has no line boundary other than `\n`.
- Evaluator.CallModifier: a `Fragment` always ends, so a body that never
  returns (`while True: pass`) is not modelled. In the source it hangs both
  the preview and the batch step.
- Evaluator.RowFor: a `Fragment` failure stands for an `Exception`. An
  exception outside that class (`SystemExit` from `exit()`,
  `KeyboardInterrupt`) escapes `test_logic_safely` in the source, since
  app.py:187 catches only `Exception`. The model gives it an "ERROR" row.
- BatchApplier.PreviewPredictsBatch: has the same gap as `Evaluator.RowFor`.
  The batch step's bare `except:` (app.py:339) drops a record on any
  exception, but the preview reports only `Exception`s.
