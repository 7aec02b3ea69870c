/** Serving one stream from a socket: exact reads, the decoder they feed, and
    the progress lines. */
module Backplay {
  import opened Bytes
  import opened Batches
  import opened Wrappers

  const LOG_EVERY_ROWS: nat := 10_000_000

  // ---- The socket ----

  /** What one read() can meet: some bytes, or an interruption. */
  datatype Arrival = Bytes(data: seq<byte>) | Interrupted

  /** What follows the last arrival: the peer closes, or reading fails. */
  datatype Tail = Closed | Broken(text: string)

  datatype ReadResult = Got(data: seq<byte>) | Retry | Error(text: string)

  function Stream(arrivals: seq<Arrival>): seq<byte> {
    if arrivals == [] then [] else
    (if arrivals[0].Bytes? then arrivals[0].data else []) + Stream(arrivals[1..])
  }

  class Socket {
    const tail: Tail
    var arrivals: seq<Arrival>

    ghost predicate Valid()
      reads this
    {
      forall i :: 0 <= i < |arrivals| && arrivals[i].Bytes? ==> arrivals[i].data != []
    }

    constructor (arrivals: seq<Arrival>, tail: Tail)
      requires forall i :: 0 <= i < |arrivals| && arrivals[i].Bytes? ==> arrivals[i].data != []
      ensures Valid() && this.arrivals == arrivals && this.tail == tail
    {
      this.arrivals, this.tail := arrivals, tail;
    }

    /** One read() of at most `max` bytes; no bytes means the peer has closed. */
    method Read(max: nat) returns (r: ReadResult)
      requires Valid() && max > 0
      modifies this
      ensures Valid()
      ensures r.Got? ==> |r.data| <= max && old(Stream(arrivals)) == r.data + Stream(arrivals)
      ensures r.Got? && r.data == [] ==> old(arrivals) == [] && tail.Closed?
      ensures r.Retry? ==> Stream(arrivals) == old(Stream(arrivals)) && |arrivals| < |old(arrivals)|
      ensures r.Got? ==> |arrivals| <= |old(arrivals)|
      ensures r.Error? ==> old(arrivals) == [] && tail == Broken(r.text)
    {
      if arrivals == [] {
        return match tail case Closed => Got([]) case Broken(text) => Error(text);
      }
      var next := arrivals[0];
      if next.Interrupted? {
        arrivals := arrivals[1..];
        return Retry;
      }
      if |next.data| <= max {
        arrivals := arrivals[1..];
        return Got(next.data);
      }
      var taken, left := next.data[..max], next.data[max..];
      arrivals := [Arrival.Bytes(left)] + arrivals[1..];
      assert arrivals[1..] == old(arrivals)[1..];
      assert next.data + Stream(arrivals[1..]) == taken + (left + Stream(arrivals[1..]));
      r := Got(taken);
    }
  }

  /** Fills `size` places of `dst` with the next of the stream, or as many as
      come before the peer closes, however they arrive. */
  method ReadFully(fd: Socket, dst: array<byte>, size: nat) returns (r: Result<nat, string>)
    requires fd.Valid() && size <= dst.Length
    modifies fd, dst
    ensures fd.Valid()
    ensures var all := old(Stream(fd.arrivals));
            if |all| >= size then r == Success(size) && dst[..size] == all[..size] && Stream(fd.arrivals) == all[size..]
            else match fd.tail
                 case Closed => r == Success(|all|) && dst[..|all|] == all && Stream(fd.arrivals) == []
                 case Broken(text) => r == Failure(text)
  {
    ghost var all := Stream(fd.arrivals);
    var done := 0;
    while done < size
      invariant fd.Valid() && done <= size
      invariant all == dst[..done] + Stream(fd.arrivals)
      decreases size - done, |fd.arrivals|
    {
      var n := fd.Read(size - done);
      match n {
        case Retry =>
        case Error(text) =>
          return Failure(text);
        case Got(data) =>
          if data == [] {
            break;
          }
          Associate(dst[..done], data, Stream(fd.arrivals));
          Copy(dst, done, data);
          done := done + |data|;
      }
    }
    r := Success(done);
  }

  method Copy(dst: array<byte>, at: nat, data: seq<byte>)
    requires at + |data| <= dst.Length
    modifies dst
    ensures dst[..at + |data|] == old(dst[..at]) + data
  {
    for i := 0 to |data|
      invariant dst[..at] == old(dst[..at])
      invariant dst[at..at + i] == data[..i]
    {
      dst[at + i] := data[i];
      assert dst[at..at + i + 1] == dst[at..at + i] + [data[i]];
    }
    assert dst[..at + |data|] == dst[..at] + dst[at..at + |data|];
  }

  // ---- The decoder, as a machine that asks for bytes and emits batches ----

  datatype RecordBatch = RecordBatch(rows: nat, content: seq<byte>)

  datatype Reaction<S> = Malformed(text: string) | Reaction(state: S, batches: seq<RecordBatch>, eos: bool)

  /** `rank` bounds how many steps without bytes the decoder takes in a row. */
  datatype Decoder<!S> = Decoder(need: S -> nat, consume: (S, seq<byte>) -> Reaction<S>, rank: S -> nat)

  ghost predicate MakesProgress<S(!new)>(d: Decoder<S>) {
    forall s :: d.need(s) == 0 ==>
      d.consume(s, []).Malformed? || d.consume(s, []).eos || d.rank(d.consume(s, []).state) < d.rank(s)
  }

  datatype Stop = EndOfStream | ClosedAtStep | Truncated(got: nat, need: nat) | ReadFailed(text: string) | BadStream(text: string)

  /** What was fed to the decoder, what it emitted, and how it ended. */
  datatype Served = Served(fed: seq<seq<byte>>, batches: seq<RecordBatch>, stop: Stop)

  predicate Normal(stop: Stop) {
    stop.EndOfStream? || stop.ClosedAtStep?
  }

  /** Serving a whole stream of bytes at once. */
  ghost function Serve<S(!new)>(d: Decoder<S>, s: S, data: seq<byte>, tail: Tail): Served
    requires MakesProgress(d)
    decreases |data|, d.rank(s)
  {
    var need := d.need(s);
    if |data| < need then
      Served([], [], if tail.Broken? then ReadFailed(tail.text)
                     else if data == [] then ClosedAtStep else Truncated(|data|, need))
    else
      var buf := data[..need];
      assert need == 0 ==> buf == [];
      match d.consume(s, buf)
      case Malformed(text) => Served([buf], [], BadStream(text))
      case Reaction(s', batches, eos) =>
        if eos then Served([buf], batches, EndOfStream)
        else
          var more := Serve(d, s', data[need..], tail);
          Served([buf] + more.fed, batches + more.batches, more.stop)
  }

  // ---- Serving is feeding the decoder the stream, buffer by buffer ----

  /** The decoder after some buffers: its state, what it emitted, and whether it
      came to an end. */
  datatype Decoded<S> = Decoded(state: S, batches: seq<RecordBatch>, ended: Option<Stop>)

  /** Gives the decoder the buffers one by one; None if one is not of the size it
      asks for, or comes after its end. */
  function Feed<S>(d: Decoder<S>, s: S, fed: seq<seq<byte>>): Option<Decoded<S>> {
    if fed == [] then Some(Decoded(s, [], None)) else
    if |fed[0]| != d.need(s) then None else
    var c := d.consume(s, fed[0]);
    if c.Malformed? then
      if |fed| == 1 then Some(Decoded(s, [], Some(BadStream(c.text)))) else None
    else if c.eos then
      if |fed| == 1 then Some(Decoded(c.state, c.batches, Some(EndOfStream))) else None
    else
      var after := Feed(d, c.state, fed[1..]);
      if after.None? then None else Some(after.value.(batches := c.batches + after.value.batches))
  }

  /** Why serving stops with these bytes left when the decoder has not ended: it
      needs more, and none come. */
  function StopFor(left: seq<byte>, need: nat, tail: Tail): Stop {
    match tail
    case Broken(text) => ReadFailed(text)
    case Closed => if left == [] then ClosedAtStep else Truncated(|left|, need)
  }

  /** Serving a stream gives the decoder its bytes from the front, in the sizes
      it asks for; what is emitted is all that the decoder emits on them; and it
      stops where the decoder ends, or where fewer bytes are left than it asks
      for, and then as the connection does. */
  lemma {:induction false} ServeFeeds<S(!new)>(d: Decoder<S>, s: S, data: seq<byte>, tail: Tail)
    requires MakesProgress(d)
    ensures var r := Serve(d, s, data, tail);
            var out := Feed(d, s, r.fed);
            && Concat(r.fed) <= data
            && out.Some? && r.batches == out.value.batches
            && var left := data[|Concat(r.fed)|..];
               if out.value.ended.Some? then r.stop == out.value.ended.value
               else |left| < d.need(out.value.state) && r.stop == StopFor(left, d.need(out.value.state), tail)
    decreases |data|, d.rank(s)
  {
    var need := d.need(s);
    if |data| >= need {
      var buf := data[..need];
      assert need == 0 ==> buf == [];
      assert data == buf + data[need..];
      var c := d.consume(s, buf);
      if c.Reaction? && !c.eos {
        ServeFeeds(d, c.state, data[need..], tail);
        var more := Serve(d, c.state, data[need..], tail);
        ConcatFirst(buf, more.fed);
        assert ([buf] + more.fed)[1..] == more.fed;
        assert data[|buf| + |Concat(more.fed)|..] == data[need..][|Concat(more.fed)|..];
      } else {
        ConcatFirst(buf, []);
        assert [buf] + [] == [buf];
      }
    }
  }

  function Total(fed: seq<seq<byte>>): nat {
    if fed == [] then 0 else |fed[0]| + Total(fed[1..])
  }

  /** A stream that ends without its end marker is accepted exactly when the
      peer closes at a step of the decoder: all bytes were consumed by whole
      steps. A step need not be a whole message, so a close after a message's
      metadata and before its body passes as well. */
  lemma {:induction false} ClosedAtStepIff<S(!new)>(d: Decoder<S>, s: S, data: seq<byte>)
    requires MakesProgress(d)
    ensures var r := Serve(d, s, data, Closed);
            && Total(r.fed) <= |data|
            && (r.stop.ClosedAtStep? ==> Total(r.fed) == |data|)
            && (r.stop.Truncated? <==> !r.stop.EndOfStream? && !r.stop.BadStream? && Total(r.fed) < |data|)
            && (r.stop.Truncated? ==> r.stop.got == |data| - Total(r.fed) && 0 < r.stop.got < r.stop.need)
            && !r.stop.ReadFailed?
    decreases |data|, d.rank(s)
  {
    var need := d.need(s);
    if |data| >= need {
      var buf := data[..need];
      assert need == 0 ==> buf == [];
      var c := d.consume(s, buf);
      if c.Reaction? && !c.eos {
        ClosedAtStepIff(d, c.state, data[need..]);
        var more := Serve(d, c.state, data[need..], Closed);
        assert ([buf] + more.fed)[1..] == more.fed;
      } else {
        assert Total([buf]) == |buf| + Total([buf][1..]);
      }
    }
  }

  /** A decoder that takes a message in two steps: a byte that gives the length
      of the body, zero at the end of the stream, and then the body. */
  datatype TwoSteps = AtMessage | InBody(len: nat)

  function TwoStepDecoder(): Decoder<TwoSteps> {
    Decoder((s: TwoSteps) => if s.AtMessage? then 1 else s.len,
            (s: TwoSteps, buf: seq<byte>) =>
              if s.InBody? then Reaction(AtMessage, [RecordBatch(|buf|, buf)], false)
              else if buf == [] then Malformed("no length")
              else Reaction(InBody(buf[0] as nat), [], buf[0] == 0),
            (s: TwoSteps) => if s.AtMessage? then 0 else 1)
  }

  /** The peer closes inside a message, after its length and before its body,
      and the stream is accepted: no byte of the body has come. */
  lemma CloseInsideMessagePasses(len: byte)
    requires len > 0
    ensures MakesProgress(TwoStepDecoder())
    ensures Serve(TwoStepDecoder(), AtMessage, [len], Closed) == Served([[len]], [], ClosedAtStep)
  {
    var d := TwoStepDecoder();
    assert [len][..1] == [len] && [len][1..] == [];
    assert d.consume(AtMessage, [len]) == Reaction(InBody(len as nat), [], false);
    assert Serve(d, InBody(len as nat), [], Closed) == Served([], [], ClosedAtStep);
  }

  // ---- The listener ----

  function RowSum(batches: seq<RecordBatch>): nat {
    if batches == [] then 0 else RowSum(batches[..|batches| - 1]) + batches[|batches| - 1].rows
  }

  /** The counts at which a progress line is due: after a batch with which the
      rows reach or pass a multiple of ten million. */
  function Lines(batches: seq<RecordBatch>): seq<(nat, nat)> {
    if batches == [] then [] else
    var before := batches[..|batches| - 1];
    Lines(before) +
    if RowSum(batches) / LOG_EVERY_ROWS > RowSum(before) / LOG_EVERY_ROWS then [(RowSum(batches), |batches|)] else []
  }

  class Listener {
    var batches: nat
    var rows: nat
    var nextLog: nat
    var lines: seq<(nat, nat)>
    var received: seq<RecordBatch>

    ghost predicate Valid()
      reads this
    {
      && batches == |received| && rows == RowSum(received)
      && nextLog == (rows / LOG_EVERY_ROWS + 1) * LOG_EVERY_ROWS
      && lines == Lines(received)
    }

    constructor ()
      ensures Valid() && received == []
    {
      batches, rows, nextLog, lines, received := 0, 0, LOG_EVERY_ROWS, [], [];
    }

    method OnRecordBatchDecoded(batch: RecordBatch)
      requires Valid()
      modifies this
      ensures Valid() && received == old(received) + [batch]
    {
      batches := batches + 1;
      rows := rows + batch.rows;
      Reaches(old(rows), rows, nextLog);
      if rows >= nextLog {
        lines := lines + [(rows, batches)];
        nextLog := (rows / LOG_EVERY_ROWS + 1) * LOG_EVERY_ROWS;
      }
      received := received + [batch];
      assert received[..|received| - 1] == old(received);
    }
  }

  /** The callbacks of one decoder step. */
  method Emit(callbacks: Listener, batches: seq<RecordBatch>)
    requires callbacks.Valid()
    modifies callbacks
    ensures callbacks.Valid() && callbacks.received == old(callbacks.received) + batches
  {
    for i := 0 to |batches|
      invariant callbacks.Valid() && callbacks.received == old(callbacks.received) + batches[..i]
    {
      callbacks.OnRecordBatchDecoded(batches[i]);
    }
    assert batches[..|batches|] == batches;
  }

  lemma Reaches(before: nat, after: nat, nextLog: nat)
    requires before <= after && nextLog == (before / LOG_EVERY_ROWS + 1) * LOG_EVERY_ROWS
    ensures after >= nextLog <==> after / LOG_EVERY_ROWS > before / LOG_EVERY_ROWS
    ensures after < nextLog ==> nextLog == (after / LOG_EVERY_ROWS + 1) * LOG_EVERY_ROWS
  {
  }

  /** One round of the loop: the bytes the decoder asks for, read and consumed.
      `stop` says why it was the last, if it was, and `fed` holds the buffer the
      decoder was given, if it was given one. */
  method DecodeStep<S(!new)>(d: Decoder<S>, s: S, fd: Socket, callbacks: Listener)
    returns (s': S, stop: Option<Stop>, ghost fed: seq<seq<byte>>)
    requires MakesProgress(d) && fd.Valid() && callbacks.Valid()
    modifies fd, callbacks
    ensures fd.Valid() && callbacks.Valid()
    ensures var all := Serve(d, s, old(Stream(fd.arrivals)), fd.tail);
            if stop.Some? then
              all.stop == stop.value && callbacks.received == old(callbacks.received) + all.batches && fed == all.fed
            else
              var more := Serve(d, s', Stream(fd.arrivals), fd.tail);
              && all.stop == more.stop && old(callbacks.received) + all.batches == callbacks.received + more.batches
              && all.fed == fed + more.fed
    ensures stop.None? ==>
              |Stream(fd.arrivals)| < old(|Stream(fd.arrivals)|) ||
              (|Stream(fd.arrivals)| == old(|Stream(fd.arrivals)|) && d.rank(s') < d.rank(s))
  {
    ghost var data, before := Stream(fd.arrivals), callbacks.received;
    assert before + [] == before;
    var need := d.need(s);
    var buf := new byte[need];
    var got := ReadFully(fd, buf, need);
    s' := s;
    if got.Failure? {
      return s, Some(ReadFailed(got.error)), [];
    }
    if got.value == 0 && need > 0 {
      return s, Some(ClosedAtStep), [];
    }
    if got.value < need {
      return s, Some(Truncated(got.value, need)), [];
    }
    fed := [buf[..]];
    assert buf[..] == buf[..need] == data[..need];
    var c := d.consume(s, buf[..]);
    if c.Malformed? {
      return s, Some(BadStream(c.text)), fed;
    }
    Emit(callbacks, c.batches);
    ghost var more := Serve(d, c.state, data[need..], fd.tail).batches;
    assert before + (c.batches + more) == (before + c.batches) + more;
    assert need == 0 ==> buf[..] == [];
    return c.state, if c.eos then Some(EndOfStream) else None, fed;
  }

  /** Reads the stream into the decoder until it ends: exactly the serving of
      the stream's bytes, whatever the fragments and interruptions. The decoder
      is given the same buffers, `fed`. */
  method Decode<S(!new)>(d: Decoder<S>, start: S, fd: Socket)
    returns (received: seq<RecordBatch>, rows: nat, lines: seq<(nat, nat)>, stop: Stop, ghost fed: seq<seq<byte>>)
    requires MakesProgress(d) && fd.Valid()
    modifies fd
    ensures var r := Serve(d, start, old(Stream(fd.arrivals)), fd.tail);
            received == r.batches && stop == r.stop && rows == RowSum(r.batches) && lines == Lines(r.batches) && fed == r.fed
  {
    var callbacks := new Listener();
    var s := start;
    ghost var all := Serve(d, start, Stream(fd.arrivals), fd.tail);
    fed := [];
    while true
      invariant fd.Valid() && callbacks.Valid() && fresh(callbacks)
      invariant var more := Serve(d, s, Stream(fd.arrivals), fd.tail);
                all.batches == callbacks.received + more.batches && all.stop == more.stop && all.fed == fed + more.fed
      decreases |Stream(fd.arrivals)|, d.rank(s)
    {
      var ended: Option<Stop>;
      ghost var step, before := [], fed;
      s, ended, step := DecodeStep(d, s, fd, callbacks);
      fed := before + step;
      Associate(before, step, Serve(d, s, Stream(fd.arrivals), fd.tail).fed);
      if ended.Some? {
        return callbacks.received, callbacks.rows, callbacks.lines, ended.value, fed;
      }
    }
  }
}
