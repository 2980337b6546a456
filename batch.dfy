/**
 * The "Apply to All" step: the fragment is wrapped and built as for the
 * preview, then called on every record in turn. A record whose call succeeds
 * takes the new identifier and description, loses its name and is kept; a
 * record whose call raises is left as it was and dropped from the output.
 *
 * `BatchApply` and `Survivors` are the specification on record values;
 * `ApplyModifier` follows the source's loop over the record objects and is
 * proved against them.
 */
module BatchApplier {
  import opened Wrappers
  import opened PyText
  import opened Normalizer
  import opened Records
  import opened Evaluator
  import opened Seqs

  /** The record as written out when the call on it succeeds. */
  function Rewrite(f: Fragment, r: Record): (out: Option<Record>)
    ensures out.Some? <==> CallModifier(f, r.id, r.description).Success?
    ensures out.Some? ==>
      && out.value.id == CallModifier(f, r.id, r.description).value.0
      && out.value.description == CallModifier(f, r.id, r.description).value.1
      && out.value.name == ""
      && out.value.sequence == r.sequence
  {
    match CallModifier(f, r.id, r.description)
    case Success((newId, newDescription)) => Some(Record(newId, newDescription, "", r.sequence))
    case Failure(_) => None
  }

  /** The record object's value after the loop has visited it. */
  function Updated(f: Fragment, r: Record): (u: Record)
    ensures CallModifier(f, r.id, r.description).Failure? ==> u == r
    ensures CallModifier(f, r.id, r.description).Success? ==> Rewrite(f, r) == Some(u)
  {
    Rewrite(f, r).GetOr(r)
  }

  /** The records written to the output file, in their order. */
  function BatchApply(f: Fragment, rs: seq<Record>): seq<Record> {
    if rs == [] then []
    else
      var last := rs[|rs| - 1];
      BatchApply(f, rs[..|rs| - 1]) + (if Rewrite(f, last).Some? then [Rewrite(f, last).value] else [])
  }

  /** The positions of the input records that reach the output. */
  function Survivors(f: Fragment, rs: seq<Record>): seq<nat> {
    if rs == [] then []
    else
      Survivors(f, rs[..|rs| - 1]) + (if Rewrite(f, rs[|rs| - 1]).Some? then [|rs| - 1] else [])
  }

  /** One more record adds its position when its call succeeds. */
  lemma SurvivorsStep(f: Fragment, rs: seq<Record>, i: nat)
    requires i < |rs|
    ensures Survivors(f, rs[..i + 1]) == Survivors(f, rs[..i]) + (if Rewrite(f, rs[i]).Some? then [i] else [])
  {
    PrefixStep(rs, i);
  }

  // ----- the output is a rewritten sub-sequence of the input -----

  /** The survivors are increasing positions of the input, and a position is
      among them exactly when the call on its record succeeds. */
  lemma {:induction false} SurvivorsExact(f: Fragment, rs: seq<Record>)
    ensures |Survivors(f, rs)| <= |rs|
    ensures forall k :: 0 <= k < |Survivors(f, rs)| ==> Survivors(f, rs)[k] < |rs|
    ensures forall j, k :: 0 <= j < k < |Survivors(f, rs)| ==> Survivors(f, rs)[j] < Survivors(f, rs)[k]
    ensures forall i :: 0 <= i < |rs| ==> (i in Survivors(f, rs) <==> Rewrite(f, rs[i]).Some?)
  {
    if rs != [] {
      var init := rs[..|rs| - 1];
      SurvivorsExact(f, init);
      assert forall i :: 0 <= i < |init| ==> init[i] == rs[i];
    }
  }

  /** Each output record is the rewritten input record at the matching survivor
      position. */
  lemma {:induction false} BatchApplyAt(f: Fragment, rs: seq<Record>)
    ensures |BatchApply(f, rs)| == |Survivors(f, rs)|
    ensures forall k :: 0 <= k < |Survivors(f, rs)| ==>
      Survivors(f, rs)[k] < |rs| && Rewrite(f, rs[Survivors(f, rs)[k]]) == Some(BatchApply(f, rs)[k])
  {
    if rs != [] {
      var init := rs[..|rs| - 1];
      BatchApplyAt(f, init);
      SurvivorsExact(f, init);
      assert forall i :: 0 <= i < |init| ==> init[i] == rs[i];
    }
  }

  /** Whatever the fragment does, every output record has an empty name and
      the residues of the input record it came from. */
  lemma OutputKeepsSequences(f: Fragment, rs: seq<Record>)
    ensures |Survivors(f, rs)| == |BatchApply(f, rs)| <= |rs|
    ensures forall k :: 0 <= k < |BatchApply(f, rs)| ==>
      && Survivors(f, rs)[k] < |rs|
      && BatchApply(f, rs)[k].name == ""
      && BatchApply(f, rs)[k].sequence == rs[Survivors(f, rs)[k]].sequence
  {
    BatchApplyAt(f, rs);
    SurvivorsExact(f, rs);
  }

  /** When every call succeeds, no record is dropped: the output is the input
      rewritten position by position. */
  lemma AllSucceed(f: Fragment, rs: seq<Record>)
    requires forall i :: 0 <= i < |rs| ==> CallModifier(f, rs[i].id, rs[i].description).Success?
    ensures |BatchApply(f, rs)| == |rs|
    ensures forall k :: 0 <= k < |rs| ==> Rewrite(f, rs[k]) == Some(BatchApply(f, rs)[k])
  {
    BatchApplyAt(f, rs);
    AllSurvive(f, rs);
  }

  /** When every call succeeds, every position survives. */
  lemma {:induction false} AllSurvive(f: Fragment, rs: seq<Record>)
    requires forall i :: 0 <= i < |rs| ==> CallModifier(f, rs[i].id, rs[i].description).Success?
    ensures |Survivors(f, rs)| == |rs|
    ensures forall k :: 0 <= k < |rs| ==> Survivors(f, rs)[k] == k
  {
    if rs != [] {
      var init := rs[..|rs| - 1];
      assert forall i :: 0 <= i < |init| ==> init[i] == rs[i];
      AllSurvive(f, init);
    }
  }

  /** When every call raises, the output is empty. */
  lemma AllFail(f: Fragment, rs: seq<Record>)
    requires forall i :: 0 <= i < |rs| ==> CallModifier(f, rs[i].id, rs[i].description).Failure?
    ensures BatchApply(f, rs) == []
  {
    BatchApplyAt(f, rs);
    SurvivorsExact(f, rs);
  }

  /** A fragment that binds neither variable and does not return leaves every
      identifier and description as it was: the output is the input with the
      names cleared. */
  lemma UntouchedFragment(f: Fragment, rs: seq<Record>)
    requires forall i :: 0 <= i < |rs| ==>
      f(rs[i].id, rs[i].description) == Success(FellThrough(None, None, rs[i].id, rs[i].description))
    ensures |BatchApply(f, rs)| == |rs|
    ensures forall k :: 0 <= k < |rs| ==>
      BatchApply(f, rs)[k] == Record(rs[k].id, rs[k].description, "", rs[k].sequence)
  {
    AllSucceed(f, rs);
  }

  /** A sample record whose call raises shows "ERROR" and the exception in
      the preview and is dropped by the batch; one whose call succeeds is kept
      and shows the identifier it is written out with. So a row reads "ERROR"
      exactly when the batch drops the record or writes it out under the
      identifier "ERROR". */
  lemma PreviewPredictsBatch(f: Fragment, rs: seq<Record>, k: nat)
    requires k < SampleSize(|rs|)
    ensures |Report(f, rs[..SampleSize(|rs|)])| == SampleSize(|rs|)
    ensures CallModifier(f, rs[k].id, rs[k].description).Failure? ==>
      && Report(f, rs[..SampleSize(|rs|)])[k].newId == "ERROR"
      && Report(f, rs[..SampleSize(|rs|)])[k].status == CallModifier(f, rs[k].id, rs[k].description).error
      && k !in Survivors(f, rs)
    ensures CallModifier(f, rs[k].id, rs[k].description).Success? ==>
      && Report(f, rs[..SampleSize(|rs|)])[k].newId == Rewrite(f, rs[k]).value.id
      && k in Survivors(f, rs)
    ensures Report(f, rs[..SampleSize(|rs|)])[k].newId == "ERROR" <==>
      k !in Survivors(f, rs) || (Rewrite(f, rs[k]).Some? && Rewrite(f, rs[k]).value.id == "ERROR")
  {
    var sample := rs[..SampleSize(|rs|)];
    ReportRows(f, sample);
    assert sample[k] == rs[k];
    SurvivorsExact(f, rs);
  }

  // ----- the loop over the record objects -----

  /** The loop over the record objects: each is rewritten in place when the
      call on it succeeds and then collected; a record whose call raises is
      skipped. The collected objects' values are the batch's output. */
  method ApplyModifier(modifierFunc: Fragment, records: seq<SeqRecord>)
    returns (newRecords: seq<SeqRecord>)
    requires Distinct(records)
    modifies set r | r in records
    ensures Views(newRecords) == BatchApply(modifierFunc, old(Views(records)))
    ensures forall k :: 0 <= k < |records| ==>
      records[k].View() == Updated(modifierFunc, old(records[k].View()))
    ensures forall r :: r in newRecords ==> r in records
    ensures |newRecords| == |Survivors(modifierFunc, old(Views(records)))|
    ensures forall j :: 0 <= j < |newRecords| ==>
      && Survivors(modifierFunc, old(Views(records)))[j] < |records|
      && newRecords[j] == records[Survivors(modifierFunc, old(Views(records)))[j]]
  {
    ghost var before := Views(records);
    newRecords := CollectRenamed(modifierFunc, records, before);
    ghost var survivors := Survivors(modifierFunc, before);
    ghost var after := Views(records);
    ghost var out := Views(newRecords);
    assert forall j :: 0 <= j < |out| ==> out[j] == after[survivors[j]];
    PickedRecords(modifierFunc, before, after, out);
  }

  /** The loop itself: the collected objects are those at the survivor
      positions of the records' values `before` on entry, and every object
      holds its updated value. */
  method CollectRenamed(modifierFunc: Fragment, records: seq<SeqRecord>, ghost before: seq<Record>)
    returns (newRecords: seq<SeqRecord>)
    requires Distinct(records)
    requires |before| == |records| && forall k :: 0 <= k < |records| ==> before[k] == records[k].View()
    modifies set r | r in records
    ensures |newRecords| == |Survivors(modifierFunc, before)|
    ensures forall j :: 0 <= j < |newRecords| ==>
      && Survivors(modifierFunc, before)[j] < |records|
      && newRecords[j] == records[Survivors(modifierFunc, before)[j]]
    ensures forall k :: 0 <= k < |records| ==> records[k].View() == Updated(modifierFunc, before[k])
  {
    newRecords := [];
    for i := 0 to |records|
      invariant Collected(modifierFunc, records, before, i, newRecords)
    {
      newRecords := Visit(modifierFunc, records, before, i, newRecords);
    }
    Whole(before);
  }

  /** The state after the loop has visited the first `i` records: the
      collected objects are those at the survivor positions so far, the
      visited records hold their updated values and the others their values
      on entry. */
  ghost predicate Collected(f: Fragment, records: seq<SeqRecord>, before: seq<Record>, i: nat,
                            newRecords: seq<SeqRecord>)
    reads set r | r in records
  {
    && i <= |records| == |before|
    && |newRecords| == |Survivors(f, before[..i])|
    && (forall j :: 0 <= j < |newRecords| ==>
          Survivors(f, before[..i])[j] < i && newRecords[j] == records[Survivors(f, before[..i])[j]])
    && (forall k :: 0 <= k < |records| ==>
          records[k].View() == if k < i then Updated(f, before[k]) else before[k])
  }

  /** One turn of the loop: the `try` on record `i`, and the append when it
      succeeds. */
  method Visit(modifierFunc: Fragment, records: seq<SeqRecord>, ghost before: seq<Record>, i: nat,
               newRecords: seq<SeqRecord>)
    returns (collected: seq<SeqRecord>)
    requires Distinct(records) && i < |records|
    requires Collected(modifierFunc, records, before, i, newRecords)
    modifies records[i]
    ensures Collected(modifierFunc, records, before, i + 1, collected)
  {
    var r := records[i];
    SurvivorsStep(modifierFunc, before, i);
    DistinctAt(records, i);
    var renamed := RenameRecord(modifierFunc, r);
    collected := newRecords;
    if renamed {
      collected := newRecords + [r];
    }
  }


  /** The values of the collected objects, when each object holds its updated
      value and the objects are those at the survivor positions, are the
      batch's output. */
  lemma PickedRecords(f: Fragment, before: seq<Record>, after: seq<Record>, out: seq<Record>)
    requires |after| == |before|
    requires forall k :: 0 <= k < |before| ==> after[k] == Updated(f, before[k])
    requires |out| == |Survivors(f, before)|
    requires forall j :: 0 <= j < |out| ==> Survivors(f, before)[j] < |before| && out[j] == after[Survivors(f, before)[j]]
    ensures out == BatchApply(f, before)
  {
    BatchApplyAt(f, before);
    Ext(out, BatchApply(f, before));
  }

  /** The body of the `try`: call the function on the record's identifier and
      description; on success overwrite both and clear the name. */
  method RenameRecord(modifierFunc: Fragment, r: SeqRecord) returns (renamed: bool)
    modifies r
    ensures renamed <==> Rewrite(modifierFunc, old(r.View())).Some?
    ensures r.View() == Updated(modifierFunc, old(r.View()))
  {
    renamed := false;
    match CallModifier(modifierFunc, r.id, r.description) {
      case Success((nid, ndesc)) =>
        r.id := nid;
        r.description := ndesc;
        r.name := "";
        renamed := true;
      case Failure(_) =>
    }
  }

  /** "Apply to All": the source is built outside any `try`, so a build error
      propagates and nothing is rewritten; otherwise the loop runs. */
  method ApplyToAll(generatedCode: string, records: seq<SeqRecord>,
                    lookupMap: map<string, string>, build: Builder)
    returns (result: Result<seq<SeqRecord>, string>)
    requires Distinct(records)
    modifies set r | r in records
    ensures match build(WrapperSource(Normalize(generatedCode)), lookupMap)
      case Failure(e) => result == Failure(e) && Views(records) == old(Views(records))
      case Success(f) =>
        && result.Success?
        && Views(result.value) == BatchApply(f, old(Views(records)))
        && (forall k :: 0 <= k < |records| ==> records[k].View() == Updated(f, old(records[k].View())))
  {
    var cleanLogic := NormalizeCodeIndentation(generatedCode);
    var indentedLogic := TextwrapIndent(cleanLogic, Indent);
    var fullFunctionStr := Join([DefLine, ImportLine, indentedLogic, ReturnLine]);
    match build(fullFunctionStr, lookupMap) {
      case Failure(e) =>
        result := Failure(e);
      case Success(modifierFunc) =>
        var newRecords := ApplyModifier(modifierFunc, records);
        result := Success(newRecords);
    }
  }
}
