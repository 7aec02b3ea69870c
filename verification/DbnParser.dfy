/** The streaming decoder of one compressed DBN file, and what opening a file
    and reading its records mean on all of the file's bytes. */
module Parser {
  import opened Bytes
  import opened Wrappers
  import opened Dbn
  import opened Header
  import opened HeaderTheorems
  import opened Framer
  import HeaderReader

  /** One call of the decompressor: the bytes it produced, possibly none, and
      whether a frame is still open after it. */
  datatype Inflate = Inflate(data: seq<byte>, open: bool)

  /** What follows the last call that produced bytes or nothing. */
  datatype Tail = EndOfInput | ReadError | Corrupt(text: string)

  function Data(steps: seq<Inflate>): seq<byte> {
    if steps == [] then [] else steps[0].data + Data(steps[1..])
  }

  function LastOpen(steps: seq<Inflate>, open: bool): bool {
    if steps == [] then open else LastOpen(steps[1..], steps[0].open)
  }

  function EndOf(steps: seq<Inflate>, tail: Tail, open: bool): End {
    match tail
    case ReadError => Broken("read error")
    case Corrupt(text) => Broken("zstd: " + text)
    case EndOfInput => if LastOpen(steps, open) then Broken("truncated zstd stream") else Clean
  }

  lemma {:induction false} LastOpenIs(steps: seq<Inflate>, open: bool)
    ensures LastOpen(steps, open) == if steps == [] then open else steps[|steps| - 1].open
  {
    if steps != [] {
      LastOpenIs(steps[1..], steps[0].open);
    }
  }

  /** The last call left a frame open: the file is cut inside it. */
  predicate CutInFrame(steps: seq<Inflate>) {
    steps != [] && steps[|steps| - 1].open
  }

  /** A stream ends well exactly if its input is read to the end and no frame is
      open there; otherwise the error says which of three things went wrong. */
  lemma EndsWellIff(steps: seq<Inflate>, tail: Tail)
    ensures EndOf(steps, tail, false).Clean? <==> tail.EndOfInput? && !CutInFrame(steps)
    ensures tail.EndOfInput? && CutInFrame(steps) ==> EndOf(steps, tail, false) == Broken("truncated zstd stream")
    ensures tail.ReadError? ==> EndOf(steps, tail, false) == Broken("read error")
    ensures tail.Corrupt? ==> EndOf(steps, tail, false) == Broken("zstd: " + tail.text)
  {
    LastOpenIs(steps, false);
  }

  datatype OpenError =
    | Stream(text: string)
    | ShorterThanPrelude
    | MissingMagic
    | BadVersion(version: nat)
    | ShortDeclaredLength
    | CutHeader
    | BadHeader(error: HeaderError)

  const MAGIC: seq<byte> := [68, 66, 78]  // "DBN"

  function Missing(end: End, e: OpenError): OpenError {
    if end.Broken? then Stream(end.text) else e
  }

  /** The length the prelude declares for the header. */
  function HeaderLen(data: seq<byte>): nat
    requires |data| >= PRELUDE_LEN
  {
    FromLE(data[4..8])
  }

  /** The version and the declared header length, once the prelude is there. */
  function Prelude(data: seq<byte>): Result<(nat, nat), OpenError>
    requires |data| >= PRELUDE_LEN
  {
    var version: nat := data[3];
    if data[..3] != MAGIC then Failure(MissingMagic) else
    if !(1 <= version <= MAX_VERSION) then Failure(BadVersion(version)) else
    if HeaderLen(data) < FIXED_LEN then Failure(ShortDeclaredLength) else
    Success((version, HeaderLen(data)))
  }

  /** The parts of a file. Records start at the end of the declared length,
      however much of it the header needs. */
  datatype Parts = Parts(version: nat, header: seq<byte>, records: seq<byte>)

  function Split(data: seq<byte>, end: End): Result<Parts, OpenError> {
    if |data| < PRELUDE_LEN then Failure(Missing(end, ShorterThanPrelude)) else
    var (version, length) :- Prelude(data);
    if |data| < PRELUDE_LEN + length then Failure(Missing(end, CutHeader)) else
    Success(Parts(version, data[PRELUDE_LEN..PRELUDE_LEN + length], data[PRELUDE_LEN + length..]))
  }

  /** The metadata of a file and its record bytes. */
  function OpenBytes(data: seq<byte>, end: End): Result<(Metadata, seq<byte>), OpenError> {
    var parts :- Split(data, end);
    match TakeStored(parts.version, parts.header)
    case Failure(e) => Failure(BadHeader(e))
    case Success((stored, _)) => Success((Mean(stored), parts.records))
  }

  lemma PreludeOfFront(front: seq<byte>, data: seq<byte>)
    requires PRELUDE_LEN <= |front| && front <= data
    ensures Prelude(front) == Prelude(data)
  {
    assert front[..3] == data[..3] && front[4..8] == data[4..8];
  }

  /** A file that says `md`: magic, version, length, header, and then bytes the
      declared length covers but the header does not need. */
  function FileOf(md: Metadata, padding: seq<byte>, records: seq<byte>): seq<byte>
    requires Storable(md)
  {
    Envelope(md.version, EncodeOnto(Store(md), padding), records)
  }

  function Envelope(version: byte, header: seq<byte>, records: seq<byte>): seq<byte> {
    MAGIC + [version] + ToLE(|header|, 4) + header + records
  }

  lemma OpenFileOf(md: Metadata, padding: seq<byte>, records: seq<byte>, end: End)
    requires Storable(md) && |EncodeOnto(Store(md), padding)| < U32
    ensures OpenBytes(FileOf(md, padding, records), end) == Success((md, records))
  {
    var header := EncodeOnto(Store(md), padding);
    MetadataRoundTrip(md, padding);
    HeaderNeeds120Bytes(md.version, header);
    SplitParts(md.version, header, records, end);
  }

  /** The bytes are a DBN file that says `md`, with these record bytes: the three
      letters, a version from 1 to 3, the length of the header, and a header of
      at least 100 bytes that stores the metadata. */
  ghost predicate IsFile(data: seq<byte>, md: Metadata, records: seq<byte>) {
    exists header: seq<byte>, stored: Stored, padding: seq<byte> :: SaysFile(data, md, records, header, stored, padding)
  }

  ghost predicate SaysFile(data: seq<byte>, md: Metadata, records: seq<byte>, header: seq<byte>, stored: Stored,
                           padding: seq<byte>) {
    && 1 <= md.version <= 3
    && data == [68, 66, 78] + [md.version] + ToLE(|header|, 4) + header + records
    && 100 <= |header| < U32
    && header == EncodeOnto(stored, padding)
    && Wf(stored) && stored.version == md.version && Mean(stored) == md
  }

  /** A file opens exactly if it is one, however its stream ends after it; what
      is read then is what it says, and that can be stored. */
  lemma OpensIff(data: seq<byte>, end: End, md: Metadata, records: seq<byte>)
    ensures OpenBytes(data, end) == Success((md, records)) <==> IsFile(data, md, records)
    ensures OpenBytes(data, end) == Success((md, records)) ==> Storable(md)
  {
    if OpenBytes(data, end) == Success((md, records)) {
      OpenedIsFile(data, end);
    }
    if IsFile(data, md, records) {
      var header, stored, padding :| SaysFile(data, md, records, header, stored, padding);
      DecodeInvertsEncode(stored, padding);
      assert data == Envelope(md.version, header, records);
      SplitParts(md.version, header, records, end);
    }
  }

  lemma OpenedIsFile(data: seq<byte>, end: End)
    requires OpenBytes(data, end).Success?
    ensures var (md, records) := OpenBytes(data, end).value; IsFile(data, md, records) && Storable(md)
  {
    hide TakeStored, EncodeOnto, Mean, Wf, Storable;
    var parts := Split(data, end).value;
    var (stored, padding) := TakeStored(parts.version, parts.header).value;
    EncodeInvertsDecode(parts.version, parts.header);
    DecodedIsStorable(parts.version, parts.header);
    SplitIs(data, end);
    VersionIs(stored);
    assert SaysFile(data, Mean(stored), parts.records, parts.header, stored, padding);
  }

  lemma VersionIs(stored: Stored)
    ensures Mean(stored).version == stored.version
  {
  }

  lemma SplitIs(data: seq<byte>, end: End)
    requires Split(data, end).Success?
    ensures var p := Split(data, end).value;
            && 1 <= p.version <= 3 && 100 <= |p.header| < U32
            && data == [68, 66, 78] + [p.version] + ToLE(|p.header|, 4) + p.header + p.records
  {
    var p := Split(data, end).value;
    Powers();
    ToFromLE(data[4..8]);
    assert data == data[..3] + [data[3]] + data[4..8] + p.header + p.records;
  }

  /** What is not a file is refused for the first thing wrong with it. */
  lemma RefusedFor(data: seq<byte>, end: End)
    ensures var r := OpenBytes(data, end);
            if |data| < 8 then r == Failure(if end.Broken? then Stream(end.text) else ShorterThanPrelude)
            else if data[..3] != [68, 66, 78] then r == Failure(MissingMagic)
            else if data[3] == 0 || data[3] > 3 then r == Failure(BadVersion(data[3]))
            else if FromLE(data[4..8]) < 100 then r == Failure(ShortDeclaredLength)
            else if |data| < 8 + FromLE(data[4..8]) then r == Failure(if end.Broken? then Stream(end.text) else CutHeader)
            else
              var header := TakeStored(data[3], data[8..8 + FromLE(data[4..8])]);
              if header.Success? then r.Success? else r == Failure(BadHeader(header.error))
  {
    hide TakeStored, Mean, FromLE;
  }

  lemma SplitParts(version: byte, header: seq<byte>, records: seq<byte>, end: End)
    requires 1 <= version <= MAX_VERSION && FIXED_LEN <= |header| < U32
    ensures Split(Envelope(version, header, records), end) == Success(Parts(version, header, records))
  {
    var file := Envelope(version, header, records);
    Powers();
    FromToLE(|header|, 4);
    assert file[..3] == MAGIC && file[3] == version;
    assert file[4..8] == ToLE(|header|, 4);
    assert file[8..8 + |header|] == header && file[8 + |header|..] == records;
  }

  class DbnParser {
    const outChunk: nat
    const tail: Tail
    var steps: seq<Inflate>
    var inFrame: bool
    var buf: seq<byte>
    var pos: nat
    ghost var refillPeak: nat

    ghost predicate Valid()
      reads this
    {
      pos <= |buf| && forall i :: 0 <= i < |steps| ==> |steps[i].data| <= outChunk
    }

    /** The bytes not consumed yet, in the buffer or still compressed. */
    ghost function Left(): seq<byte>
      reads this
      requires Valid()
    {
      buf[pos..] + Data(steps)
    }

    ghost function StreamEnd(): End
      reads this
    {
      EndOf(steps, tail, inFrame)
    }

    constructor (steps: seq<Inflate>, tail: Tail, outChunk: nat)
      requires forall i :: 0 <= i < |steps| ==> |steps[i].data| <= outChunk
      ensures Valid() && pos == 0 && buf == []
      ensures Left() == Data(steps) && StreamEnd() == EndOf(steps, tail, false)
      ensures this.outChunk == outChunk && refillPeak == 0
    {
      this.steps, this.tail, this.outChunk := steps, tail, outChunk;
      inFrame, buf, pos, refillPeak := false, [], 0, 0;
    }

    /** Moves at least one byte from the stream to the buffer and answers true,
        answers false at a clean end with nothing left, or gives the error. */
    method Fill() returns (r: Result<bool, string>)
      requires Valid()
      modifies `steps, `inFrame, `buf
      ensures Valid() && pos == old(pos)
      ensures StreamEnd() == old(StreamEnd()) && |buf| <= |old(buf)| + outChunk
      ensures r.Success? ==> old(buf) <= buf && Left() == old(Left())
      ensures r == Success(true) ==> |old(buf)| < |buf| && |steps| < old(|steps|)
      ensures r == Success(false) ==> buf == old(buf) && Data(steps) == [] && StreamEnd().Clean?
      ensures r.Failure? ==> old(Data(steps)) == [] && StreamEnd() == Broken(r.error)
    {
      while true
        invariant Valid() && buf == old(buf) && Data(steps) == old(Data(steps))
        invariant StreamEnd() == old(StreamEnd()) && |steps| <= old(|steps|)
        decreases |steps|
      {
        if steps == [] {
          match tail {
            case ReadError => return Failure("read error");
            case Corrupt(text) =>
              buf := buf + Zeros(outChunk);
              return Failure("zstd: " + text);
            case EndOfInput =>
              if inFrame {
                return Failure("truncated zstd stream");
              }
              return Success(false);
          }
        }
        var step := steps[0];
        steps := steps[1..];
        inFrame := step.open;
        assert buf[pos..] + (step.data + Data(steps)) == (buf + step.data)[pos..] + Data(steps);
        buf := buf + step.data;
        if step.data != [] {
          return Success(true);
        }
      }
    }

    /** Fills until the buffer holds `n` bytes; `short` says what is missing if
        the stream ends first. */
    method FillTo(n: nat, short: OpenError) returns (r: Result<(), OpenError>)
      requires Valid()
      modifies `steps, `inFrame, `buf
      ensures Valid() && pos == old(pos)
      ensures StreamEnd() == old(StreamEnd())
      ensures r.Success? ==> |buf| >= n && old(buf) <= buf && Left() == old(Left())
      ensures r.Failure? ==> |old(buf)| + |old(Data(steps))| < n && r.error == Missing(StreamEnd(), short)
    {
      while |buf| < n
        invariant Valid() && old(buf) <= buf && Left() == old(Left())
        invariant StreamEnd() == old(StreamEnd())
        decreases |steps|
      {
        assert |Left()| == |buf| - pos + |Data(steps)|;
        var more := Fill();
        if more.Failure? {
          return Failure(Stream(more.error));
        }
        if !more.value {
          return Failure(short);
        }
      }
      r := Success(());
    }

    /** Reads up to the end of the declared header and moves behind it. */
    method ReadParts() returns (r: Result<(nat, seq<byte>), OpenError>)
      requires Valid() && pos == 0 && buf == []
      modifies `steps, `inFrame, `buf, `pos
      ensures Valid() && StreamEnd() == old(StreamEnd())
      ensures match Split(old(Left()), old(StreamEnd()))
              case Failure(e) => r == Failure(e)
              case Success(parts) => r == Success((parts.version, parts.header)) && Left() == parts.records
    {
      ghost var data := Left();
      var _ :- FillTo(PRELUDE_LEN, ShorterThanPrelude);
      BufferIsFront(data);
      PreludeOfFront(buf, data);
      if buf[..3] != MAGIC {
        return Failure(MissingMagic);
      }
      var version := buf[3];
      if version < 1 || version > MAX_VERSION {
        return Failure(BadVersion(version));
      }
      var length := FromLE(buf[4..8]);
      if length < FIXED_LEN {
        return Failure(ShortDeclaredLength);
      }
      var _ :- FillTo(PRELUDE_LEN + length, CutHeader);
      BufferIsFront(data);
      var header := buf[PRELUDE_LEN..PRELUDE_LEN + length];
      assert header == data[PRELUDE_LEN..PRELUDE_LEN + length];
      pos := PRELUDE_LEN + length;
      assert Left() == data[pos..];
      r := Success((version, header));
    }

    /** Reads the metadata header of a fresh parser and moves to the records. */
    method ReadMetadata() returns (r: Result<Metadata, OpenError>)
      requires Valid() && pos == 0 && buf == []
      modifies `steps, `inFrame, `buf, `pos
      ensures Valid() && StreamEnd() == old(StreamEnd())
      ensures match OpenBytes(old(Left()), old(StreamEnd()))
              case Failure(e) => r == Failure(e)
              case Success((md, records)) => r == Success(md) && Left() == records
    {
      var parts :- ReadParts();
      var parsed := HeaderReader.ReadHeader(parts.0, parts.1);
      if parsed.Failure? {
        return Failure(BadHeader(parsed.error));
      }
      r := Success(parsed.value);
    }

    lemma BufferIsFront(data: seq<byte>)
      requires Valid() && pos == 0 && Left() == data
      ensures buf <= data
    {
    }

    /** Drops the consumed bytes and refills. No more than one record, short of
        its last byte, is carried over. */
    method Refill() returns (r: Result<bool, string>)
      requires Valid() && |buf| - pos <= 1019
      modifies this
      ensures Valid() && pos == 0
      ensures StreamEnd() == old(StreamEnd())
      ensures r.Success? ==> Left() == old(Left())
      ensures r == Success(true) ==> |steps| < old(|steps|)
      ensures r == Success(false) ==> buf == old(Left()) == old(buf[pos..]) && StreamEnd().Clean?
      ensures r.Failure? ==> old(Left()) == old(buf[pos..]) && StreamEnd() == Broken(r.error)
      ensures old(refillPeak) <= refillPeak <= if old(refillPeak) > 1019 + outChunk then old(refillPeak) else 1019 + outChunk
      ensures |buf| <= refillPeak
    {
      ghost var left := Left();
      buf := buf[pos..];
      pos := 0;
      assert Left() == left;
      r := Fill();
      assert r.Success? ==> |buf| <= 1019 + outChunk;
      refillPeak := if refillPeak > |buf| then refillPeak else |buf|;
    }

    /** Yields the records complete in the buffer, behind those yielded before,
        until the limit, a bad length, or a record that continues in the next
        chunk. */
    method YieldBuffered(limit: nat, before: seq<seq<byte>>) returns (records: seq<seq<byte>>, stop: Option<Stop>)
      requires Valid() && (limit == 0 || |before| < limit)
      modifies `pos
      ensures Valid()
      ensures var all := Prepend(before, Frames(old(Left()), StreamEnd(), limit, |before|));
              if stop.Some? then all == Framing(records, stop.value, Left())
              else all == Prepend(records, Frames(Left(), StreamEnd(), limit, |records|))
      ensures stop.None? ==> Partial(buf[pos..]) && (limit == 0 || |records| < limit)
    {
      hide Frames;
      records := before;
      ghost var rest, end := Data(steps), StreamEnd();
      ghost var all := Prepend(before, Frames(Left(), end, limit, |before|));
      while pos < |buf|
        invariant pos <= |buf| && (limit == 0 || |records| < limit)
        invariant all == Prepend(records, Frames(buf[pos..] + rest, end, limit, |records|))
      {
        var len := (buf[pos] as int) * 4;
        if len < HEADER_LEN {
          StopAtBadLength(buf[pos..], rest, end, limit, records);
          return records, Some(BadLength(|records|, len));
        }
        if pos + len > |buf| {
          return records, None;
        }
        CutNext(buf, pos, rest, end, limit, records);
        records := records + [buf[pos..pos + len]];
        pos := pos + len;
        if limit != 0 && |records| == limit {
          return records, Some(LimitReached);
        }
      }
      stop := None;
    }

    /** Yields the records up to a nonzero `limit`: the framing of the bytes
        left, however they arrive. The buffer stays within one partial record and
        one chunk. */
    method ForEachRecord(limit: nat) returns (records: seq<seq<byte>>, stop: Stop)
      requires Valid()
      modifies this
      ensures Valid() && StreamEnd() == old(StreamEnd())
      ensures var f := Frames(old(Left()), old(StreamEnd()), limit, 0);
              records == f.records && stop == f.stop && (!stop.StreamError? ==> Left() == f.rest)
      ensures refillPeak <= if old(refillPeak) > 1019 + outChunk then old(refillPeak) else 1019 + outChunk
    {
      ghost var end := StreamEnd();
      ghost var all := Frames(Left(), end, limit, 0);
      records := [];
      assert Prepend([], all) == all;
      while true
        invariant Valid() && StreamEnd() == end
        invariant limit == 0 || |records| < limit
        invariant all == Prepend(records, Frames(Left(), end, limit, |records|))
        invariant refillPeak <= if old(refillPeak) > 1019 + outChunk then old(refillPeak) else 1019 + outChunk
        decreases |steps|
      {
        var reached: Option<Stop>;
        records, reached := YieldBuffered(limit, records);
        if reached.Some? {
          return records, reached.value;
        }
        assert |buf[pos..]| <= 1019;
        var more := Refill();
        if more.Failure? {
          assert records + [] == records;
          return records, StreamError(more.error);
        }
        if !more.value {
          assert records + [] == records;
          return records, if buf != [] then CutRecord else EndOfFile;
        }
      }
    }

    /** Yields `a` records and, if there were that many, `b` more, or all when
        `b` is 0: what one call would have yielded, however the bytes arrive. */
    method ForEachInTwo(a: nat, b: nat) returns (records: seq<seq<byte>>, stop: Stop)
      requires Valid() && a > 0
      modifies this
      ensures Valid() && StreamEnd() == old(StreamEnd())
      ensures var f := Frames(old(Left()), old(StreamEnd()), if b == 0 then 0 else a + b, 0);
              records == f.records && stop == f.stop && (!stop.StreamError? ==> Left() == f.rest)
    {
      hide Frames;
      SplitLimit(Left(), StreamEnd(), a, b);
      records, stop := ForEachRecord(a);
      if stop.LimitReached? {
        var more;
        more, stop := ForEachRecord(b);
        records, stop := records + more, Shift(stop, a);
      }
    }
  }

  /** Nothing, or a record that lacks at least one byte. */
  predicate Partial(front: seq<byte>) {
    front != [] ==> HEADER_LEN <= DeclaredLen(front) && |front| < DeclaredLen(front)
  }

  /** A record complete in the buffer is the next of the framing. */
  lemma CutNext(buf: seq<byte>, pos: nat, rest: seq<byte>, end: End, limit: nat, records: seq<seq<byte>>)
    requires pos < |buf| && Complete(buf[pos..])
    ensures var next := pos + (buf[pos] as int) * 4;
            Prepend(records, Frames(buf[pos..] + rest, end, limit, |records|)) ==
              if limit != 0 && |records| + 1 == limit
              then Framing(records + [buf[pos..next]], LimitReached, buf[next..] + rest)
              else Prepend(records + [buf[pos..next]], Frames(buf[next..] + rest, end, limit, |records| + 1))
  {
    var front := buf[pos..];
    var len := DeclaredLen(front);
    var record, left := buf[pos..pos + len], buf[pos + len..] + rest;
    assert (front + rest)[..len] == record && (front + rest)[len..] == left;
    var more := Frames(left, end, limit, |records| + 1);
    assert records + ([record] + more.records) == (records + [record]) + more.records;
  }

  lemma StopAtBadLength(front: seq<byte>, rest: seq<byte>, end: End, limit: nat, records: seq<seq<byte>>)
    requires front != [] && DeclaredLen(front) < HEADER_LEN
    ensures Prepend(records, Frames(front + rest, end, limit, |records|)) ==
            Framing(records, BadLength(|records|, DeclaredLen(front)), front + rest)
  {
    assert records + [] == records;
  }
}
