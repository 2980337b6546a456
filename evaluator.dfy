/**
 * The dry run (`test_logic_safely`) and the preview shown beside the code.
 *
 * The fragment is normalised, indented by four spaces between a fixed
 * function header and a fixed `return` line, and handed to a `Builder`, which
 * stands for `exec`: it either rejects the source with an error message or
 * yields a `Fragment` that, called on an identifier and a description, raises
 * or runs the body. What the final `return` line makes of the body's local
 * variables (`locals().get(..)` with the parameters as fallbacks) is modelled
 * here, in `CallModifier`.
 */
module Evaluator {
  import opened Wrappers
  import opened PyText
  import opened Normalizer
  import opened Records

  /** How the body of the generated function ended. */
  datatype Exit =
      /** It reached the wrapper's `return` line. The four fields are the local
          variables the line consults: `new_id` and `new_description` when the
          body bound them, and the parameters' values at that point. */
    | FellThrough(newId: Option<string>, newDescription: Option<string>,
                  originalId: string, originalDescription: string)
      /** It returned a pair of its own. */
    | Returned(id: string, description: string)

  /** The compiled function body: given `(original_id, original_description)`
      it raises (with the text of the exception) or ends. */
  type Fragment = (string, string) -> Result<Exit, string>

  /** `exec` of the generated source in a scope holding `lookup_map`: the
      function it defines, or the exception it raises. */
  type Builder = (string, map<string, string>) -> Result<Fragment, string>

  const Indent := "    "

  /** `locals().get('<name>', <param>)`. */
  function LocalOr(name: string, param: string): string {
    "locals().get('" + name + "', " + param + ")"
  }

  const DefLine := "def dynamic_modifier(" + "original_id, " + "original_description" + "):"
  const ImportLine := Indent + "import re"
  const ReturnLine := Indent + "return " + LocalOr("new_id", "original_id") + ", "
                      + LocalOr("new_description", "original_description")

  /** The text handed to `exec`: the header, the `import`, the logic indented
      by four spaces and the `return` line, one after the other on their own lines. */
  function WrapperSource(cleanLogic: string): string {
    Join([DefLine, ImportLine, TextwrapIndent(cleanLogic, Indent), ReturnLine])
  }

  /** `dynamic_modifier(id, description)`: the body's pair, or the values of
      `new_id` and `new_description`, each falling back to the current value of
      the parameter when the body left it unbound. */
  function CallModifier(f: Fragment, id: string, description: string): (r: Result<(string, string), string>)
    ensures r.Failure? <==> f(id, description).Failure?
    ensures r.Failure? ==> r.error == f(id, description).error
    ensures f(id, description).Success? && f(id, description).value.FellThrough? ==>
      var e := f(id, description).value;
      && (e.newId.Some? ==> r.value.0 == e.newId.value)
      && (e.newId.None? ==> r.value.0 == e.originalId)
      && (e.newDescription.Some? ==> r.value.1 == e.newDescription.value)
      && (e.newDescription.None? ==> r.value.1 == e.originalDescription)
    ensures f(id, description) == Success(FellThrough(None, None, id, description)) ==>
      r == Success((id, description))
    ensures f(id, description).Success? && f(id, description).value.Returned? ==>
      r == Success((f(id, description).value.id, f(id, description).value.description))
  {
    match f(id, description)
    case Failure(e) => Failure(e)
    case Success(FellThrough(newId, newDescription, originalId, originalDescription)) =>
      Success((newId.GetOr(originalId), newDescription.GetOr(originalDescription)))
    case Success(Returned(i, d)) => Success((i, d))
  }

  // ----- the shape of the generated source -----

  /** The fixed lines of the wrapper hold no newline. */
  lemma WrapperLinesPlain()
    ensures '\n' !in DefLine && '\n' !in ImportLine && '\n' !in ReturnLine && '\n' !in Indent
  {
    LocalOrPlain("new_id", "original_id");
    LocalOrPlain("new_description", "original_description");
    assert ReturnLine == Indent + "return " + LocalOr("new_id", "original_id") + ", "
                         + LocalOr("new_description", "original_description");
  }

  /** `locals().get(..)` adds no newline to its arguments. */
  lemma LocalOrPlain(name: string, param: string)
    requires '\n' !in name && '\n' !in param
    ensures '\n' !in LocalOr(name, param)
  {
  }

  /** When the cleaned logic has no line boundary other than `\n`, the source
      is the header line, the `import` line, each line of the logic indented by
      four spaces unless it is whitespace only, and the `return` line. */
  lemma WrapperLines(cleanLogic: string)
    requires forall i :: 0 <= i < |cleanLogic| && cleanLogic[i] != '\n' ==> !IsLineBreak(cleanLogic[i])
    ensures Split(WrapperSource(cleanLogic))
         == [DefLine, ImportLine] + PrefixEach(Split(cleanLogic), Indent) + [ReturnLine]
  {
    WrapperLinesPlain();
    IndentFramed(DefLine, ImportLine, cleanLogic, ReturnLine, Indent);
  }

  /** The first statement of a non-empty normalised fragment sits exactly one
      level inside the generated function: four spaces, then the first kept
      line without its indentation. */
  lemma WrapperFirstStatement(code: string)
    requires KeptLines(Split(code)) != []
    requires forall i :: 0 <= i < |Normalize(code)| && Normalize(code)[i] != '\n' ==> !IsLineBreak(Normalize(code)[i])
    ensures |Split(WrapperSource(Normalize(code)))| > 2
    ensures Split(WrapperSource(Normalize(code)))[2] == Indent + LStrip(KeptLines(Split(code))[0])
  {
    WrapperLines(Normalize(code));
    FirstLinePrefixed(code);
  }

  /** The first line of a non-empty normalised fragment is prefixed. */
  lemma FirstLinePrefixed(code: string)
    requires KeptLines(Split(code)) != []
    ensures PrefixEach(Split(Normalize(code)), Indent)[0] == Indent + LStrip(KeptLines(Split(code))[0])
  {
    NormalizeFirstLine(code);
    var parts := Split(Normalize(code));
    var first := parts[0];
    assert !AllSpace(first) by {
      assert !IsSpace(first[0]);
    }
  }

  // ----- the preview table -----

  /** One row of the preview table. */
  datatype PreviewRow = PreviewRow(originalId: string, newId: string, status: string)

  /** The row for one sample record. */
  function RowFor(f: Fragment, r: Record): (row: PreviewRow)
    ensures row.originalId == r.id
    ensures CallModifier(f, r.id, r.description).Success? ==>
      && row.newId == CallModifier(f, r.id, r.description).value.0
      && (row.status == "Changed" <==> row.newId != r.id)
      && (row.status == "Unchanged" <==> row.newId == r.id)
    ensures CallModifier(f, r.id, r.description).Failure? ==>
      row.newId == "ERROR" && row.status == CallModifier(f, r.id, r.description).error
  {
    match CallModifier(f, r.id, r.description)
    case Success((newId, _)) =>
      PreviewRow(r.id, newId, if r.id != newId then "Changed" else "Unchanged")
    case Failure(e) => PreviewRow(r.id, "ERROR", e)
  }

  /** The rows the loop appends, one per sample record. */
  function Report(f: Fragment, rs: seq<Record>): seq<PreviewRow> {
    if rs == [] then [] else Report(f, rs[..|rs| - 1]) + [RowFor(f, rs[|rs| - 1])]
  }

  /** Exactly one row per sample record, in order; a record whose call raises
      gets its error row and the later records are still reported. */
  lemma {:induction false} ReportRows(f: Fragment, rs: seq<Record>)
    ensures |Report(f, rs)| == |rs|
    ensures forall k :: 0 <= k < |rs| ==> Report(f, rs)[k] == RowFor(f, rs[k])
  {
    if rs != [] {
      ReportRows(f, rs[..|rs| - 1]);
    }
  }

  /** The table warns when its New ID column holds `"ERROR"`. */
  predicate Warns(rows: seq<PreviewRow>) {
    exists k :: 0 <= k < |rows| && rows[k].newId == "ERROR"
  }

  /** A sample record whose call raises makes the table warn. */
  lemma FailureWarns(f: Fragment, rs: seq<Record>, k: nat)
    requires k < |rs| && CallModifier(f, rs[k].id, rs[k].description).Failure?
    ensures Warns(Report(f, rs))
  {
    ReportRows(f, rs);
    assert Report(f, rs)[k].newId == "ERROR";
  }

  /** The call on a record raised, or produced the identifier `"ERROR"` itself. */
  predicate Flagged(f: Fragment, r: Record) {
    var result := CallModifier(f, r.id, r.description);
    result.Failure? || result.value.0 == "ERROR"
  }

  /** A row reading `"ERROR"` belongs to a flagged sample record. */
  lemma ErrorRowFlagged(f: Fragment, rs: seq<Record>, k: nat)
    requires k < |Report(f, rs)| && Report(f, rs)[k].newId == "ERROR"
    ensures k < |rs| && Flagged(f, rs[k])
  {
    ReportRows(f, rs);
  }

  /** The message shown when `exec` rejects the source. */
  function SyntaxErrorMessage(error: string, source: string): (m: string)
    ensures StartsWith(m, "Syntax Error: ")
    ensures |m| > |source| && m[|m| - |source|..] == source
  {
    "Syntax Error: " + error + "\n\nGenerated Code Context:\n" + source
  }

  /** A missing lookup table is an empty one. */
  function LookupOrEmpty(lookupMap: Option<map<string, string>>): (m: map<string, string>)
    ensures lookupMap.None? ==> m == map[]
    ensures lookupMap.Some? ==> m == lookupMap.value
  {
    lookupMap.GetOr(map[])
  }

  /** `test_logic_safely`: a build failure gives no rows and the error with
      the generated source; otherwise one row per sample record and no error. */
  method TestLogicSafely(logicCode: string, sampleRecords: seq<SeqRecord>,
                         lookupMap: Option<map<string, string>>, build: Builder)
    returns (previewData: seq<PreviewRow>, errorMsg: Option<string>)
    ensures var source := WrapperSource(Normalize(logicCode));
      match build(source, LookupOrEmpty(lookupMap))
      case Failure(e) => previewData == [] && errorMsg == Some(SyntaxErrorMessage(e, source))
      case Success(f) => errorMsg == None && previewData == Report(f, Views(sampleRecords))
  {
    previewData := [];
    errorMsg := None;
    var scope := LookupOrEmpty(lookupMap);

    var cleanLogic := NormalizeCodeIndentation(logicCode);
    var indentedLogic := TextwrapIndent(cleanLogic, Indent);
    var fullFunctionStr := Join([DefLine, ImportLine, indentedLogic, ReturnLine]);

    match build(fullFunctionStr, scope) {
      case Failure(e) =>
        errorMsg := Some(SyntaxErrorMessage(e, fullFunctionStr));
      case Success(modifierFunc) =>
        previewData := ReportSamples(modifierFunc, sampleRecords);
    }
  }

  /** The loop of the dry run: one row appended per sample record. */
  method ReportSamples(modifierFunc: Fragment, sampleRecords: seq<SeqRecord>)
    returns (previewData: seq<PreviewRow>)
    ensures previewData == Report(modifierFunc, Views(sampleRecords))
  {
    previewData := [];
    ghost var samples := Views(sampleRecords);
    for i := 0 to |sampleRecords|
      invariant previewData == Report(modifierFunc, samples[..i])
    {
      var record := sampleRecords[i];
      var oldId := record.id;
      var oldDesc := record.description;
      var row;
      match CallModifier(modifierFunc, oldId, oldDesc) {
        case Success((newId, _)) =>
          row := PreviewRow(oldId, newId, if oldId != newId then "Changed" else "Unchanged");
        case Failure(e) =>
          row := PreviewRow(oldId, "ERROR", e);
      }
      assert samples[..i + 1][..i] == samples[..i];
      assert row == RowFor(modifierFunc, samples[i]);
      previewData := previewData + [row];
    }
    assert samples[..|sampleRecords|] == samples;
  }

  /** What the preview column shows. */
  datatype PreviewOutcome =
    | ShowError(message: string)
    | ShowTable(rows: seq<PreviewRow>, warned: bool)
      /** An empty preview is a frame without columns: it is shown, and then
          looking up its `New ID` column raises `KeyError`. */
    | EmptyTableKeyError

  /** `"ERROR" in preview_df['New ID'].values`; the column exists only when
      the frame has a row. */
  method HasErrorRow(rows: seq<PreviewRow>) returns (found: bool)
    requires rows != []
    ensures found <==> Warns(rows)
  {
    found := false;
    for k := 0 to |rows|
      invariant found <==> exists j :: 0 <= j < k && rows[j].newId == "ERROR"
    {
      if rows[k].newId == "ERROR" {
        found := true;
      }
    }
  }

  /** The number of records the preview runs on: `records[:5]`. */
  function SampleSize(count: nat): (n: nat)
    ensures n <= 5 && n <= count
    ensures n == count || n == 5
  {
    if count < 5 then count else 5
  }

  /** The dry run on the first five records. */
  method PreviewSample(generatedCode: string, records: seq<SeqRecord>,
                       lookupMap: map<string, string>, build: Builder)
    returns (previewDf: seq<PreviewRow>, error: Option<string>)
    ensures |previewDf| <= SampleSize(|records|)
    ensures var source := WrapperSource(Normalize(generatedCode));
      match build(source, lookupMap)
      case Failure(e) => previewDf == [] && error == Some(SyntaxErrorMessage(e, source))
      case Success(f) =>
        && error == None
        && previewDf == Report(f, Views(records[..SampleSize(|records|)]))
        && |previewDf| == SampleSize(|records|)
  {
    var sample := records[..SampleSize(|records|)];
    previewDf, error := TestLogicSafely(generatedCode, sample, Some(lookupMap), build);
    ghost var source := WrapperSource(Normalize(generatedCode));
    if build(source, lookupMap).Success? {
      ReportRows(build(source, lookupMap).value, Views(sample));
    }
  }

  /** The preview column: the error; or, for an empty upload, the empty table
      and the `KeyError` of its missing column; or the table, with a warning
      when a row reads `"ERROR"`. */
  method Preview(generatedCode: string, records: seq<SeqRecord>,
                 lookupMap: map<string, string>, build: Builder)
    returns (outcome: PreviewOutcome)
    ensures var source := WrapperSource(Normalize(generatedCode));
      match build(source, lookupMap)
      case Failure(e) => outcome == ShowError(SyntaxErrorMessage(e, source))
      case Success(f) =>
        && (records == [] ==> outcome == EmptyTableKeyError)
        && (records != [] ==>
             && outcome.ShowTable?
             && outcome.rows == Report(f, Views(records[..SampleSize(|records|)]))
             && (outcome.warned <==> Warns(outcome.rows)))
    ensures outcome.ShowTable? ==> 0 < |outcome.rows| <= 5 && |outcome.rows| <= |records|
  {
    var previewDf, error := PreviewSample(generatedCode, records, lookupMap, build);
    if error.Some? {
      outcome := ShowError(error.value);
    } else if previewDf == [] {
      outcome := EmptyTableKeyError;
    } else {
      var warned := HasErrorRow(previewDf);
      outcome := ShowTable(previewDf, warned);
    }
  }
}
