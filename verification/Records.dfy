/** The records a file's builder is given, by what it makes of each. */
module Records {
  /** A row, a record of another type, or a record too short for its type. */
  datatype Record<R> = Row(row: R) | Other | Short

  /** The rows of some records in order, and how many records are skipped. */
  function RowsOf<R>(records: seq<Record<R>>): seq<R> {
    if records == [] then [] else
    RowsOf(records[..|records| - 1]) +
    (var last := records[|records| - 1]; if last.Row? then [last.row] else [])
  }

  function SkippedOf<R>(records: seq<Record<R>>): nat {
    if records == [] then 0 else
    SkippedOf(records[..|records| - 1]) + if records[|records| - 1].Other? then 1 else 0
  }

  ghost predicate NoShort<R>(records: seq<Record<R>>) {
    forall i :: 0 <= i < |records| ==> !records[i].Short?
  }

  lemma TakeNext<R>(records: seq<Record<R>>, n: nat)
    requires n < |records|
    ensures RowsOf(records[..n + 1]) ==
            RowsOf(records[..n]) + if records[n].Row? then [records[n].row] else []
    ensures SkippedOf(records[..n + 1]) ==
            SkippedOf(records[..n]) + if records[n].Other? then 1 else 0
    ensures NoShort(records[..n + 1]) <==> NoShort(records[..n]) && !records[n].Short?
  {
    assert records[..n + 1][..n] == records[..n];
  }

  /** The rows come in the order of their records, none changed: the row of a
      record stands behind those of the records before it. */
  lemma {:induction false} RowsInOrder<R>(records: seq<Record<R>>, i: nat)
    requires i < |records| && records[i].Row?
    ensures |RowsOf(records[..i])| < |RowsOf(records)|
    ensures RowsOf(records)[|RowsOf(records[..i])|] == records[i].row
    decreases |records|
  {
    var n := |records| - 1;
    if i < n {
      RowsInOrder(records[..n], i);
      assert records[..n][..i] == records[..i];
    }
  }

  /** As many rows as records come out exactly if every record is a row. */
  lemma {:induction false} AllRowsIff<R>(records: seq<Record<R>>)
    ensures |RowsOf(records)| <= |records|
    ensures |RowsOf(records)| == |records| <==> forall i :: 0 <= i < |records| ==> records[i].Row?
  {
    if records != [] {
      var n := |records| - 1;
      AllRowsIff(records[..n]);
      assert forall i :: 0 <= i < n ==> records[i] == records[..n][i];
    }
  }

  lemma {:induction false} RowsAndSkipped<R>(records: seq<Record<R>>)
    requires NoShort(records)
    ensures |RowsOf(records)| + SkippedOf(records) == |records|
  {
    if records != [] {
      RowsAndSkipped(records[..|records| - 1]);
    }
  }
}
