/** What framing a DBN record stream means, on all of its bytes at once. */
module Framer {
  import opened Bytes
  import opened Batches

  const HEADER_LEN: nat := 16

  /** How the decompressed stream ends after its last byte. */
  datatype End = Clean | Broken(text: string)

  datatype Stop =
    | EndOfFile
    | LimitReached
    | BadLength(index: nat, len: nat)
    | CutRecord
    | StreamError(text: string)

  datatype Framing = Framing(records: seq<seq<byte>>, stop: Stop, rest: seq<byte>)

  /** The length a record declares: its first byte counts 32-bit words. */
  function DeclaredLen(data: seq<byte>): nat
    requires data != []
  {
    (data[0] as int) * 4
  }

  predicate Complete(data: seq<byte>) {
    data != [] && HEADER_LEN <= DeclaredLen(data) <= |data|
  }

  function StopAtEnd(end: End, rest: seq<byte>): Stop {
    match end
    case Broken(text) => StreamError(text)
    case Clean => if rest == [] then EndOfFile else CutRecord
  }

  /** Cuts `data` into records, `count` of which came before; a nonzero limit
      stops after that many. */
  function Frames(data: seq<byte>, end: End, limit: nat, count: nat): Framing
    decreases |data|
  {
    if data == [] then Framing([], StopAtEnd(end, data), data) else
    var len := DeclaredLen(data);
    if len < HEADER_LEN then Framing([], BadLength(count, len), data) else
    if len > |data| then Framing([], StopAtEnd(end, data), data) else
    if limit != 0 && count + 1 == limit then Framing([data[..len]], LimitReached, data[len..]) else
    Prepend([data[..len]], Frames(data[len..], end, limit, count + 1))
  }

  function Prepend(records: seq<seq<byte>>, f: Framing): Framing {
    f.(records := records + f.records)
  }

  ghost predicate WellFormed(record: seq<byte>) {
    Complete(record) && DeclaredLen(record) == |record|
  }

  lemma {:induction false} FramesMakeUp(data: seq<byte>, end: End, limit: nat, count: nat)
    ensures var f := Frames(data, end, limit, count); data == Concat(f.records) + f.rest
    decreases |data|
  {
    if Complete(data) {
      var head, tail := data[..DeclaredLen(data)], data[DeclaredLen(data)..];
      assert data == head + tail;
      if limit != 0 && count + 1 == limit {
        ConcatFirst(head, []);
      } else {
        FramesMakeUp(tail, end, limit, count + 1);
        var f := Frames(tail, end, limit, count + 1);
        ConcatFirst(head, f.records);
        Associate(head, Concat(f.records), f.rest);
      }
    }
  }

  lemma {:induction false} FramesAreWellFormed(data: seq<byte>, end: End, limit: nat, count: nat)
    ensures forall r :: r in Frames(data, end, limit, count).records ==> WellFormed(r)
    decreases |data|
  {
    if Complete(data) && !(limit != 0 && count + 1 == limit) {
      FramesAreWellFormed(data[DeclaredLen(data)..], end, limit, count + 1);
    }
  }

  /** The records are well formed and make up the bytes before `rest`. */
  lemma FramesKeepBytes(data: seq<byte>, end: End, limit: nat, count: nat)
    ensures var f := Frames(data, end, limit, count);
            data == Concat(f.records) + f.rest && forall r :: r in f.records ==> WellFormed(r)
  {
    FramesMakeUp(data, end, limit, count);
    FramesAreWellFormed(data, end, limit, count);
  }

  /** Why the framing stopped: at the limit after exactly that many records, or
      because no further record could be cut. */
  lemma {:induction false} FramesStop(data: seq<byte>, end: End, limit: nat, count: nat)
    requires limit == 0 || count < limit
    ensures var f := Frames(data, end, limit, count);
            && (f.stop.LimitReached? <==> limit != 0 && |f.records| == limit - count)
            && (limit != 0 ==> |f.records| <= limit - count)
            && (!f.stop.LimitReached? ==> !Complete(f.rest))
            && (f.stop.EndOfFile? <==> !f.stop.LimitReached? && f.rest == [] && end.Clean?)
            && (f.stop.CutRecord? ==> f.rest != [] && end.Clean? && (DeclaredLen(f.rest) > |f.rest|))
            && (f.stop.BadLength? ==> f.rest != [] && f.stop == BadLength(count + |f.records|, DeclaredLen(f.rest)) && f.stop.len < 16)
            && (f.stop.StreamError? ==> end == Broken(f.stop.text))
    decreases |data|
  {
    if Complete(data) && !(limit != 0 && count + 1 == limit) {
      FramesStop(data[DeclaredLen(data)..], end, limit, count + 1);
    }
  }

  /** Framing undoes writing records one after the other. */
  lemma {:induction false} FramesOfRecords(records: seq<seq<byte>>, count: nat)
    requires forall r :: r in records ==> WellFormed(r)
    ensures Frames(Concat(records), Clean, 0, count) == Framing(records, EndOfFile, [])
  {
    if records != [] {
      var data := Concat(records);
      assert records[0] in records;
      assert data[..|records[0]|] == records[0] && data[|records[0]|..] == Concat(records[1..]);
      FramesOfRecords(records[1..], count + 1);
      assert [records[0]] + records[1..] == records;
    }
  }

  ghost predicate AreRecords(records: seq<seq<byte>>) {
    forall r :: r in records ==> WellFormed(r)
  }

  /** A record at the front is cut first. */
  lemma FrameFirst(record: seq<byte>, rest: seq<byte>, end: End, limit: nat, count: nat)
    requires WellFormed(record)
    ensures Frames(record + rest, end, limit, count) ==
              if limit != 0 && count + 1 == limit then Framing([record], LimitReached, rest)
              else Prepend([record], Frames(rest, end, limit, count + 1))
  {
    var data := record + rest;
    assert data[..|record|] == record && data[|record|..] == rest;
  }

  /** Whole records at the front are cut first, up to the limit. */
  lemma {:induction false} FramesOfFront(records: seq<seq<byte>>, rest: seq<byte>, end: End, limit: nat, count: nat)
    requires AreRecords(records) && records != []
    requires limit == 0 || count + |records| <= limit
    ensures Frames(Concat(records) + rest, end, limit, count) ==
              if limit != 0 && count + |records| == limit then Framing(records, LimitReached, rest)
              else Prepend(records, Frames(rest, end, limit, count + |records|))
  {
    hide Frames, WellFormed;
    var more := records[1..];
    assert records[0] in records && records == [records[0]] + more;
    Associate(records[0], Concat(more), rest);
    FrameFirst(records[0], Concat(more) + rest, end, limit, count);
    if more == [] {
      assert Concat(more) + rest == rest;
    } else {
      FramesOfFront(more, rest, end, limit, count + 1);
      Associate([records[0]], more, Frames(rest, end, limit, count + |records|).records);
    }
  }

  /** The bytes are whole records, `n` of them if that is not 0. */
  ghost predicate WholeRecords(data: seq<byte>, n: nat) {
    exists records: seq<seq<byte>> :: AreRecords(records) && Concat(records) == data && (n == 0 || |records| == n)
  }

  ghost predicate StartsWithRecords(data: seq<byte>, n: nat) {
    exists k :: 0 <= k <= |data| && WholeRecords(data[..k], n)
  }

  /** A stream is read well exactly if it is whole records to a clean end, or
      starts with as many as the limit asks for: not if it is cut inside a
      record, not if a length is bad. */
  lemma ReadsWellIff(data: seq<byte>, end: End, limit: nat)
    ensures var stop := Frames(data, end, limit, 0).stop;
            stop.EndOfFile? || stop.LimitReached? <==>
              (end.Clean? && WholeRecords(data, 0)) || (limit > 0 && StartsWithRecords(data, limit))
  {
    hide Frames, WellFormed;
    var stop := Frames(data, end, limit, 0).stop;
    if stop.EndOfFile? || stop.LimitReached? {
      ReadWellHasRecords(data, end, limit);
    }
    if end.Clean? && WholeRecords(data, 0) {
      var records: seq<seq<byte>> :| AreRecords(records) && Concat(records) == data;
      WholeReadWell(records, limit);
    }
    if limit > 0 && StartsWithRecords(data, limit) {
      var k :| 0 <= k <= |data| && WholeRecords(data[..k], limit);
      var records: seq<seq<byte>> :| AreRecords(records) && Concat(records) == data[..k] && |records| == limit;
      assert data == Concat(records) + data[k..];
      FramesOfFront(records, data[k..], end, limit, 0);
    }
  }

  lemma ReadWellHasRecords(data: seq<byte>, end: End, limit: nat)
    requires var stop := Frames(data, end, limit, 0).stop; stop.EndOfFile? || stop.LimitReached?
    ensures (end.Clean? && WholeRecords(data, 0)) || (limit > 0 && StartsWithRecords(data, limit))
  {
    var f := Frames(data, end, limit, 0);
    FramesKeepBytes(data, end, limit, 0);
    FramesStop(data, end, limit, 0);
    hide Frames, WellFormed;
    assert AreRecords(f.records);
    if f.stop.EndOfFile? {
      assert Concat(f.records) + f.rest == Concat(f.records);
      assert WholeRecords(data, 0);
    } else {
      var k := |Concat(f.records)|;
      assert data[..k] == Concat(f.records);
      assert WholeRecords(data[..k], limit);
    }
  }

  lemma WholeReadWell(records: seq<seq<byte>>, limit: nat)
    requires AreRecords(records)
    ensures var stop := Frames(Concat(records), Clean, limit, 0).stop; stop.EndOfFile? || stop.LimitReached?
  {
    FramesOfRecords(records, 0);
    if limit > 0 {
      FramesContinue(Concat(records), Clean, limit, 0, 0);
    }
  }

  function Shift(stop: Stop, ahead: nat): Stop {
    if stop.BadLength? then BadLength(stop.index + ahead, stop.len) else stop
  }

  /** Only the index in an error depends on how many records came before. */
  lemma {:induction false} FramesShift(data: seq<byte>, end: End, limit: nat, count: nat, ahead: nat)
    ensures var f := Frames(data, end, limit, count);
            Frames(data, end, if limit == 0 then 0 else limit + ahead, count + ahead) == f.(stop := Shift(f.stop, ahead))
    decreases |data|
  {
    if Complete(data) && !(limit != 0 && count + 1 == limit) {
      FramesShift(data[DeclaredLen(data)..], end, limit, count + 1, ahead);
    }
  }

  /** A stop at a limit continues: going on from the rest is the same as not
      having stopped there. A stop for any other reason comes before the limit
      and would have come without it. */
  lemma {:induction false} FramesContinue(data: seq<byte>, end: End, a: nat, limit: nat, count: nat)
    requires count < a && (limit == 0 || a < limit)
    ensures var f := Frames(data, end, a, count);
            Frames(data, end, limit, count) ==
              if f.stop.LimitReached? then Prepend(f.records, Frames(f.rest, end, limit, a)) else f
    decreases |data|
  {
    if Complete(data) {
      var len := DeclaredLen(data);
      if count + 1 < a {
        FramesContinue(data[len..], end, a, limit, count + 1);
        var f := Frames(data[len..], end, a, count + 1);
        var g := Frames(f.rest, end, limit, a);
        assert [data[..len]] + (f.records + g.records) == ([data[..len]] + f.records) + g.records;
      }
    }
  }

  /** Reading a > 0 records and then b more, or all when b is 0, is reading
      a + b, or all, in one call. */
  lemma SplitLimit(data: seq<byte>, end: End, a: nat, b: nat)
    requires a > 0
    ensures var first := Frames(data, end, a, 0);
            var second := Frames(first.rest, end, b, 0);
            var both := Frames(data, end, if b == 0 then 0 else a + b, 0);
            && both.records == first.records + (if first.stop.LimitReached? then second.records else [])
            && both.stop == (if first.stop.LimitReached? then Shift(second.stop, a) else first.stop)
            && both.rest == (if first.stop.LimitReached? then second.rest else first.rest)
            && (first.stop.EndOfFile? ==> second == Framing([], EndOfFile, []))
  {
    var first := Frames(data, end, a, 0);
    FramesContinue(data, end, a, if b == 0 then 0 else a + b, 0);
    FramesShift(first.rest, end, b, 0, a);
    FramesStop(data, end, a, 0);
  }

  /** A limit keeps the first records of the file. */
  lemma LimitTakesFirst(data: seq<byte>, end: End, limit: nat)
    requires limit > 0
    ensures var all := Frames(data, end, 0, 0).records;
            Frames(data, end, limit, 0).records == if |all| <= limit then all else all[..limit]
  {
    FramesContinue(data, end, limit, 0, 0);
    FramesStop(data, end, limit, 0);
  }
}
