/**
 * The sequence records the renamer works on. Only the parts it reads or
 * writes are modelled: the identifier, the description line, the name and
 * the residues, which the renamer carries through untouched.
 */
module Records {

  /** The value of one record at some moment. */
  datatype Record = Record(id: string, description: string, name: string, sequence: string)

  /** A parsed record; the batch step rewrites its fields in place. */
  class SeqRecord {
    var id: string
    var description: string
    var name: string
    var sequence: string

    constructor (id: string, description: string, name: string, sequence: string)
      ensures View() == Record(id, description, name, sequence)
    {
      this.id := id;
      this.description := description;
      this.name := name;
      this.sequence := sequence;
    }

    /** The record's current field values. */
    function View(): Record
      reads this
    {
      Record(id, description, name, sequence)
    }
  }

  /** The current values of a list of records, position by position. */
  function Views(rs: seq<SeqRecord>): (vs: seq<Record>)
    reads set r | r in rs
    ensures |vs| == |rs|
    ensures forall k :: 0 <= k < |rs| ==> vs[k] == rs[k].View()
  {
    if rs == [] then [] else Views(rs[..|rs| - 1]) + [rs[|rs| - 1].View()]
  }

  /** No record object occurs twice: parsing a file yields a fresh object per entry. */
  predicate Distinct(rs: seq<SeqRecord>) {
    rs == [] || (rs[|rs| - 1] !in rs[..|rs| - 1] && Distinct(rs[..|rs| - 1]))
  }

  /** The object at one position occurs nowhere else. */
  lemma {:induction false} DistinctAt(rs: seq<SeqRecord>, i: nat)
    requires Distinct(rs) && i < |rs|
    ensures forall k :: 0 <= k < |rs| && k != i ==> rs[k] != rs[i]
  {
    var n := |rs| - 1;
    var init := rs[..n];
    if i < n {
      DistinctAt(init, i);
      assert rs[n] !in init;
      assert init[i] == rs[i];
      assert forall k :: 0 <= k < n ==> init[k] == rs[k];
    } else {
      assert forall k :: 0 <= k < n ==> init[k] == rs[k] && init[k] in init;
    }
  }
}
