/** Cutting a sequence of rows into batches. */
module Batches {
  function Concat<T>(parts: seq<seq<T>>): seq<T> {
    if parts == [] then [] else parts[0] + Concat(parts[1..])
  }

  function TotalRows<T>(parts: seq<seq<T>>): nat {
    if parts == [] then 0 else TotalRows(parts[..|parts| - 1]) + |parts[|parts| - 1]|
  }

  function Partition<T>(rows: seq<T>, n: nat): seq<seq<T>>
    requires n > 0
  {
    if rows == [] then [] else
    if |rows| <= n then [rows] else [rows[..n]] + Partition(rows[n..], n)
  }

  lemma Associate<T>(a: seq<T>, b: seq<T>, c: seq<T>)
    ensures a + (b + c) == (a + b) + c
  {
  }

  lemma {:induction false} ConcatAppend<T>(parts: seq<seq<T>>, more: seq<seq<T>>)
    ensures Concat(parts + more) == Concat(parts) + Concat(more)
  {
    if parts == [] {
      assert parts + more == more;
    } else {
      ConcatAppend(parts[1..], more);
      assert (parts + more)[0] == parts[0] && (parts + more)[1..] == parts[1..] + more;
      Associate(parts[0], Concat(parts[1..]), Concat(more));
    }
  }

  lemma ConcatFirst<T>(first: seq<T>, parts: seq<seq<T>>)
    ensures Concat([first] + parts) == first + Concat(parts)
  {
    assert ([first] + parts)[1..] == parts;
  }

  lemma ConcatPush<T>(parts: seq<seq<T>>, last: seq<T>)
    ensures Concat(parts + [last]) == Concat(parts) + last
  {
    ConcatAppend(parts, [last]);
    assert Concat([last]) == last + Concat([last][1..]);
  }

  lemma {:induction false} TotalRowsIsLength<T>(parts: seq<seq<T>>)
    ensures TotalRows(parts) == |Concat(parts)|
  {
    if parts != [] {
      var n := |parts| - 1;
      TotalRowsIsLength(parts[..n]);
      assert parts == parts[..n] + [parts[n]];
      ConcatPush(parts[..n], parts[n]);
    }
  }

  /** Batches of exactly `n` rows, the last one of 1 to `n`. */
  ghost predicate Cut<T>(parts: seq<seq<T>>, n: nat) {
    && (forall k :: 0 <= k < |parts| ==> 0 < |parts[k]| <= n)
    && (forall k :: 0 <= k < |parts| - 1 ==> |parts[k]| == n)
  }

  /** A cut of `rows` is the partition of `rows`: there is only one. */
  lemma {:induction false} CutIsPartition<T>(parts: seq<seq<T>>, n: nat)
    requires n > 0 && Cut(parts, n)
    ensures parts == Partition(Concat(parts), n)
  {
    if parts != [] {
      var rest := parts[1..];
      assert Cut(rest, n) by {
        assert forall k :: 0 <= k < |rest| ==> rest[k] == parts[k + 1];
      }
      CutIsPartition(rest, n);
      var rows := Concat(parts);
      if rest == [] {
        assert rows == parts[0] && parts == [rows];
      } else {
        assert |parts[0]| == n;
        assert rest[0] == parts[1];
        assert Concat(rest) == rest[0] + Concat(rest[1..]);
        assert rows[..n] == parts[0] && rows[n..] == Concat(rest);
      }
    }
  }

  lemma CutFirst<T>(first: seq<T>, parts: seq<seq<T>>, n: nat)
    requires 0 < |first| == n && Cut(parts, n)
    ensures Cut([first] + parts, n)
  {
    var all := [first] + parts;
    assert forall k :: 0 < k < |all| ==> all[k] == parts[k - 1];
  }

  /** Conversely the partition is such a cut and loses no row. */
  lemma {:induction false} PartitionIsCut<T>(rows: seq<T>, n: nat)
    requires n > 0
    ensures Cut(Partition(rows, n), n)
    ensures Concat(Partition(rows, n)) == rows
    decreases |rows|
  {
    if rows == [] {
    } else if |rows| <= n {
      assert Concat([rows]) == rows + Concat([rows][1..]);
    } else {
      PartitionIsCut(rows[n..], n);
      var tail := Partition(rows[n..], n);
      ConcatFirst(rows[..n], tail);
      CutFirst(rows[..n], tail, n);
      assert rows[..n] + rows[n..] == rows;
    }
  }

  /** The partition has as few batches as `n` allows: |rows| / n, rounded up. */
  lemma {:induction false} PartitionIsShortest<T>(rows: seq<T>, n: nat)
    requires n > 0
    ensures |rows| <= |Partition(rows, n)| * n < |rows| + n
    decreases |rows|
  {
    if |rows| > n {
      PartitionIsShortest(rows[n..], n);
      var tail := |Partition(rows[n..], n)|;
      assert (1 + tail) * n == n + tail * n;
    }
  }
}
