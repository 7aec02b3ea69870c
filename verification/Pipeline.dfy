/** Converting one file: decoder, builder and threaded writer together. */
module Pipeline {
  import opened Bytes
  import opened Wrappers
  import opened Dbn
  import opened Batches
  import opened Framer
  import opened Parser
  import opened Rows
  import opened RowTheorems
  import opened Builders
  import opened Header
  import opened HeaderTheorems
  import W = Writer
  import Records
  import opened WriterTheorems
  import F = Faultless
  import L = WriterLiveness
  import X = Faults

  datatype Options = Options(limit: nat, batchRows: int)

  datatype ConvertError =
    | OpenFailed(error: OpenError)
    | MixedSchemas
    | UnsupportedSchema(schema: nat)
    | BatchRowsNotPositive
    | ShortRecord
    | ReadFailed(stop: Stop)
    | WriteFailed(why: W.Failure)

  /** A compressed file as the decompressor delivers it. */
  datatype Delivery = Delivery(steps: seq<Inflate>, tail: Parser.Tail)
  {
    /** No call gives more than the decompressor's output size. */
    ghost predicate Fits(outChunk: nat) {
      forall i :: 0 <= i < |steps| ==> |steps[i].data| <= outChunk
    }
  }

  function BytesOf(d: Delivery): seq<byte> {
    Data(d.steps)
  }

  function EndingOf(d: Delivery): End {
    EndOf(d.steps, d.tail, false)
  }

  /** What is to be converted: a kind of record, and the framing of the file. */
  datatype Plan = Plan(kind: Kind, tsOut: bool, framing: Framing)

  /** Every record is as long as a record header. */
  predicate Long(records: seq<seq<byte>>) {
    forall i :: 0 <= i < |records| ==> |records[i]| >= 16
  }

  predicate Framed(p: Plan) {
    Long(p.framing.records)
  }

  lemma FramesAreFramed(records: seq<byte>, end: End, limit: nat)
    ensures Long(Frames(records, end, limit, 0).records)
  {
    FramesKeepBytes(records, end, limit, 0);
    var f := Frames(records, end, limit, 0);
    forall i | 0 <= i < |f.records|
      ensures |f.records[i]| >= 16
    {
      assert f.records[i] in f.records;
    }
  }

  /** What the metadata allows: a plan for the record bytes that follow it. */
  function PlanFrom(md: Metadata, records: seq<byte>, end: End, opt: Options): (r: Result<Plan, ConvertError>)
    ensures r.Success? ==> Framed(r.value) && opt.batchRows > 0
  {
    if md.schema.None? then Failure(MixedSchemas) else
    if md.schema.value !in SCHEMAS then Failure(UnsupportedSchema(md.schema.value)) else
    if opt.batchRows <= 0 then Failure(BatchRowsNotPositive) else
    FramesAreFramed(records, end, opt.limit);
    Success(Plan(SCHEMAS[md.schema.value], md.tsOut, Frames(records, end, opt.limit, 0)))
  }

  /** What opening a file and its writer comes to, before any record. */
  function PlanBytes(data: seq<byte>, end: End, opt: Options): (r: Result<Plan, ConvertError>)
    ensures r.Success? ==> Framed(r.value) && opt.batchRows > 0
  {
    match OpenBytes(data, end)
    case Failure(e) => Failure(OpenFailed(e))
    case Success((md, records)) => PlanFrom(md, records, end, opt)
  }

  function Classified(p: Plan): seq<Records.Record<Row>>
    requires Framed(p)
  {
    ClassifyAll(p.kind, p.tsOut, p.framing.records)
  }

  /** The rows of the records of the writer's kind, in file order. */
  function Decoded(p: Plan): seq<Row>
    requires Framed(p)
  {
    Records.RowsOf(Classified(p))
  }

  predicate ReadsWell(p: Plan) {
    p.framing.stop.EndOfFile? || p.framing.stop.LimitReached?
  }

  /** The calls on the writer: append() for every record, then close(), unless
      reading threw first. */
  function Calls(p: Plan): W.Script<Row>
    requires Framed(p)
  {
    W.Script(Classified(p), if ReadsWell(p) then W.Close else W.Abandon)
  }

  function Convert(p: Plan, opt: Options, depth: nat, moves: seq<W.Move>): W.State<Row>
    requires Framed(p) && opt.batchRows > 0
  {
    Start(W.Config(opt.batchRows, depth), Calls(p), moves)
  }

  function OutcomeOf(p: Plan, opt: Options, depth: nat, moves: seq<W.Move>): W.Outcome
    requires Framed(p) && opt.batchRows > 0
  {
    Convert(p, opt, depth, moves).caller.outcome
  }

  /** The file holds the decoded records of the schema, in order, cut into full
      batches, and every record of a file read well is a row or skipped. */
  ghost predicate Written(s: W.State<Row>, p: Plan, batchRows: nat)
    requires Framed(p) && batchRows > 0
  {
    && Concat(s.thread.groups) == Decoded(p)
    && s.thread.groups == Partition(Decoded(p), batchRows)
    && s.caller.outcome == W.Returned(|Decoded(p)|)
    && |Decoded(p)| + s.caller.skipped == |p.framing.records|
    && s.caller.footer && ReadsWell(p)
  }

  /** If a conversion returns, then for every queue depth and interleaving its
      plan is written. */
  lemma PlanIsWritten(p: Plan, opt: Options, depth: nat, moves: seq<W.Move>)
    requires Framed(p) && opt.batchRows > 0 && depth > 0
    requires OutcomeOf(p, opt, depth, moves).Returned?
    ensures Written(Convert(p, opt, depth, moves), p, opt.batchRows)
  {
    CloseReturnsEveryRow(W.Config(opt.batchRows, depth), Calls(p), moves);
    PartitionIsCut(Decoded(p), opt.batchRows);
  }

  // ---- One row per record ----

  /** The record has the type the file's schema promises. */
  predicate IsOfKind(p: Plan, record: seq<byte>)
    requires |record| >= 16
  {
    record[1] == KindRtype(p.kind)
  }

  /** A file gives one row per record exactly if all its records have the type of
      its schema and are long enough for it. */
  lemma OneRowPerRecordIff(p: Plan)
    requires Framed(p)
    ensures |Decoded(p)| == |p.framing.records| <==>
              forall i :: 0 <= i < |p.framing.records| ==>
                IsOfKind(p, p.framing.records[i]) && |p.framing.records[i]| >= Want(p.kind, p.tsOut)
  {
    Records.AllRowsIff(Classified(p));
    assert forall i :: 0 <= i < |p.framing.records| ==> Classified(p)[i] == Classify(p.kind, p.tsOut, p.framing.records[i]);
  }

  /** A conversion that returns has written one row per record read exactly if
      all of them have the type of the schema, that is, if none was skipped. */
  lemma ReturnedRowsAreRecordsIff(p: Plan, opt: Options, depth: nat, moves: seq<W.Move>)
    requires Framed(p) && opt.batchRows > 0 && depth > 0
    requires OutcomeOf(p, opt, depth, moves).Returned?
    ensures var s := Convert(p, opt, depth, moves);
            && (s.caller.outcome.rows == |p.framing.records| <==>
                  forall i :: 0 <= i < |p.framing.records| ==> IsOfKind(p, p.framing.records[i]))
            && (s.caller.outcome.rows == |p.framing.records| <==> s.caller.skipped == 0)
  {
    PlanIsWritten(p, opt, depth, moves);
    CloseReturnsEveryRow(W.Config(opt.batchRows, depth), Calls(p), moves);
    OneRowPerRecordIff(p);
    forall i | 0 <= i < |p.framing.records| && IsOfKind(p, p.framing.records[i])
      ensures |p.framing.records[i]| >= Want(p.kind, p.tsOut)
    {
      assert !Classified(p)[i].Short?;
    }
  }

  /** A file of schema mbo whose one record, sixteen bytes of header, is of type
      0, a trade. */
  const OTHER_METADATA := Metadata(3, [], Some(SCHEMA_MBO), 0, None, None, None, 0, false, 71, [], [], [], [])
  const OTHER_RECORD: seq<byte> := [4, RTYPE_MBP_0, 0, 0, 0, 0, 0, 0, 0, 0, 0, 0, 0, 0, 0, 0]

  const OTHER_PLAN := Plan(MboKind, false, Framing([OTHER_RECORD], EndOfFile, []))

  lemma OtherFile(batchRows: nat)
    requires batchRows > 0
    ensures Storable(OTHER_METADATA) && WellFormed(OTHER_RECORD)
    ensures PlanBytes(FileOf(OTHER_METADATA, [], OTHER_RECORD), Clean, Options(0, batchRows)) == Success(OTHER_PLAN)
  {
    var stored := Store(OTHER_METADATA);
    assert stored.lists == Lists([], [], [], []);
    var lists := ListsOnto(stored.lists, []);
    assert |lists| == 16;
    var layout := LayoutOnto(3, stored.layout, lists);
    assert |layout| == 75;
    var flags := FlagsOnto(3, stored.flags, layout);
    assert |QueryOnto(stored.query, flags)| == 120;
    assert Concat([OTHER_RECORD]) == OTHER_RECORD;
    hide EncodeOnto, Store;
    PlanOfFile(OTHER_METADATA, [], [OTHER_RECORD], batchRows);
  }

  /** It is a well-formed file with one record and no row: a faultless conversion
      to its end returns 0 rows and 1 skipped. */
  lemma RecordWithoutRow(batchRows: nat, depth: nat, moves: seq<W.Move>)
    requires batchRows > 0 && depth > 0 && NoFaults(moves)
    ensures Storable(OTHER_METADATA) && WellFormed(OTHER_RECORD)
    ensures PlanBytes(FileOf(OTHER_METADATA, [], OTHER_RECORD), Clean, Options(0, batchRows)) == Success(OTHER_PLAN)
    ensures Framed(OTHER_PLAN) && Decoded(OTHER_PLAN) == []
    ensures var s := Convert(OTHER_PLAN, Options(0, batchRows), depth, moves);
            W.Finished(s) ==> s.caller.outcome == W.Returned(0) && s.caller.skipped == 1
  {
    OtherFile(batchRows);
    OtherPlanHasNoRow(batchRows, depth, moves);
  }

  lemma OtherPlanHasNoRow(batchRows: nat, depth: nat, moves: seq<W.Move>)
    requires batchRows > 0 && depth > 0 && NoFaults(moves)
    ensures Framed(OTHER_PLAN) && Decoded(OTHER_PLAN) == []
    ensures var s := Convert(OTHER_PLAN, Options(0, batchRows), depth, moves);
            W.Finished(s) ==> s.caller.outcome == W.Returned(0) && s.caller.skipped == 1
  {
    var opt := Options(0, batchRows);
    assert Framed(OTHER_PLAN);
    var all := Classified(OTHER_PLAN);
    assert all[..0] == [] && all[0].Other?;
    assert Records.RowsOf(all) == Records.RowsOf(all[..0]) + [];
    assert ReadsWell(OTHER_PLAN) && Records.NoShort(all);
    hide Convert, Classified, Classify;
    if W.Finished(Convert(OTHER_PLAN, opt, depth, moves)) {
      ConvertSucceedsIff(OTHER_PLAN, opt, depth, moves);
      PlanIsWritten(OTHER_PLAN, opt, depth, moves);
    }
  }

  // ---- What converts ----

  ghost predicate IsPlanOf(p: Plan, md: Metadata, records: seq<byte>, end: End, limit: nat) {
    && ((md.schema == Some(0) && p.kind.MboKind?) || (md.schema == Some(4) && p.kind.TradeKind?))
    && p.tsOut == md.tsOut && p.framing == Frames(records, end, limit, 0)
  }

  /** There is something to convert exactly if the bytes are a DBN file of one
      schema, mbo or trades, and batches have rows; it is the framing of the
      record bytes by the kind of that schema. */
  lemma PlanIff(data: seq<byte>, end: End, opt: Options, p: Plan)
    ensures PlanBytes(data, end, opt) == Success(p) <==>
              opt.batchRows > 0 && exists md, records :: IsFile(data, md, records) && IsPlanOf(p, md, records, end, opt.limit)
  {
    hide IsFile, Frames, OpenBytes;
    var parts := OpenBytes(data, end);
    if PlanBytes(data, end, opt) == Success(p) {
      OpensIff(data, end, parts.value.0, parts.value.1);
      assert IsPlanOf(p, parts.value.0, parts.value.1, end, opt.limit);
    }
    if opt.batchRows > 0 && exists md, records :: IsFile(data, md, records) && IsPlanOf(p, md, records, end, opt.limit) {
      var md, records :| IsFile(data, md, records) && IsPlanOf(p, md, records, end, opt.limit);
      OpensIff(data, end, md, records);
    }
  }

  /** What cannot be converted is refused for the first of these: it is not a
      file, it mixes schemas, its schema is another, batches have no rows. */
  lemma ConversionRefusedFor(data: seq<byte>, end: End, opt: Options)
    ensures var r := PlanBytes(data, end, opt);
            var file := OpenBytes(data, end);
            if file.Failure? then r == Failure(OpenFailed(file.error))
            else
              match file.value.0.schema
              case None => r == Failure(MixedSchemas)
              case Some(schema) =>
                if schema != 0 && schema != 4 then r == Failure(UnsupportedSchema(schema))
                else if opt.batchRows <= 0 then r == Failure(BatchRowsNotPositive)
                else r.Success?
  {
    hide OpenBytes, Frames;
  }

  /** The record bytes of a delivery that opens. */
  function RecordBytes(d: Delivery): seq<byte>
    requires OpenBytes(BytesOf(d), EndingOf(d)).Success?
  {
    OpenBytes(BytesOf(d), EndingOf(d)).value.1
  }

  /** The delivery holds whole records up to an end that is not inside a zstd
      frame and no error, or as many records as the limit asks for. */
  ghost predicate WellRead(d: Delivery, limit: nat)
    requires OpenBytes(BytesOf(d), EndingOf(d)).Success?
  {
    || (d.tail.EndOfInput? && !CutInFrame(d.steps) && WholeRecords(RecordBytes(d), 0))
    || (limit > 0 && StartsWithRecords(RecordBytes(d), limit))
  }

  lemma ReadsWellIffWellRead(d: Delivery, opt: Options)
    requires PlanBytes(BytesOf(d), EndingOf(d), opt).Success?
    ensures ReadsWell(PlanBytes(BytesOf(d), EndingOf(d), opt).value) <==> WellRead(d, opt.limit)
  {
    hide OpenBytes, Frames, WholeRecords, StartsWithRecords;
    EndsWellIff(d.steps, d.tail);
    ReadsWellIff(RecordBytes(d), EndingOf(d), opt.limit);
  }

  /** Whatever fails and however the threads interleave, a conversion that has
      ended returned exactly if the delivery was read well, no record of the
      schema is short, and no call failed. So one cut inside a record or a zstd
      frame never returns without a limit. */
  lemma ConversionReturnsIff(d: Delivery, opt: Options, depth: nat, moves: seq<W.Move>)
    requires PlanBytes(BytesOf(d), EndingOf(d), opt).Success? && depth > 0
    requires W.Finished(Convert(PlanBytes(BytesOf(d), EndingOf(d), opt).value, opt, depth, moves))
    ensures var p := PlanBytes(BytesOf(d), EndingOf(d), opt).value;
            OutcomeOf(p, opt, depth, moves).Returned? <==>
              && WellRead(d, opt.limit) && Records.NoShort(Classified(p))
              && X.Met(W.Config(opt.batchRows, depth), Calls(p), moves) == []
  {
    hide WellRead;
    var p := PlanBytes(BytesOf(d), EndingOf(d), opt).value;
    ReadsWellIffWellRead(d, opt);
    X.ReturnedIff(W.Config(opt.batchRows, depth), Calls(p), moves);
  }

  // ---- Limits and errors ----

  /** A limit converts the first records of the file, and no others. */
  lemma LimitConvertsFirst(md: Metadata, records: seq<byte>, end: End, opt: Options)
    requires PlanFrom(md, records, end, opt).Success? && opt.limit > 0
    ensures var all := PlanFrom(md, records, end, opt.(limit := 0));
            && all.Success?
            && var whole := all.value.framing.records;
               PlanFrom(md, records, end, opt).value.framing.records
               == if |whole| <= opt.limit then whole else whole[..opt.limit]
  {
    LimitTakesFirst(records, end, opt.limit);
  }

  /** When no allocation or write fails, a conversion that runs to its end
      returns exactly if the file reads well and no record of the schema is
      too short. */
  lemma ConvertSucceedsIff(p: Plan, opt: Options, depth: nat, moves: seq<W.Move>)
    requires Framed(p) && opt.batchRows > 0 && depth > 0 && NoFaults(moves)
    requires W.Finished(Convert(p, opt, depth, moves))
    ensures OutcomeOf(p, opt, depth, moves).Returned? <==> ReadsWell(p) && Records.NoShort(Classified(p))
  {
    var c := W.Config(opt.batchRows, depth);
    if ReadsWell(p) && Records.NoShort(Classified(p)) {
      NoFaultsNoLoss(c, Calls(p), moves);
    } else if OutcomeOf(p, opt, depth, moves).Returned? {
      CloseReturnsEveryRow(c, Calls(p), moves);
    }
  }

  /** What stands in the way of a conversion of the plan: a short record, or
      reading, whichever comes first. */
  ghost function ErrorIn(p: Plan): Option<ConvertError>
    requires Framed(p)
  {
    if !Records.NoShort(Classified(p)) then Some(ShortRecord)
    else if !ReadsWell(p) then Some(ReadFailed(p.framing.stop))
    else None
  }

  /** The error a conversion ended in; `stop` is how reading stopped. */
  function ErrorOf(outcome: W.Outcome, stop: Stop): Option<ConvertError> {
    match outcome
    case Threw(CallerStopped) => Some(ReadFailed(stop))
    case Threw(ShortRecord) => Some(ConvertError.ShortRecord)
    case Threw(why) => Some(WriteFailed(why))
    case _ => None
  }

  /** Without faults a finished conversion ends as its plan says, in the same
      error if in any, with the same file and counts. */
  lemma FaultlessConversion(p: Plan, opt: Options, depth: nat, moves: seq<W.Move>)
    requires Framed(p) && opt.batchRows > 0 && depth > 0 && NoFaults(moves)
    requires W.Finished(Convert(p, opt, depth, moves))
    ensures ErrorOf(OutcomeOf(p, opt, depth, moves), p.framing.stop) == ErrorIn(p)
    ensures F.ResultOf(Convert(p, opt, depth, moves)) == F.ResultWithoutFaults(opt.batchRows, Calls(p))
  {
    F.FaultlessRunsAgree(W.Config(opt.batchRows, depth), Calls(p), moves);
  }

  // ---- The same from the file on ----

  /** What reading a file and building its batches comes to. */
  datatype Reading = Reading(kind: Kind, tsOut: bool, records: seq<seq<byte>>, stop: Stop, batches: seq<Batch>,
                             skipped: nat, complete: bool)

  /** `r` is the framing of plan `p`. */
  ghost predicate Follows(r: Reading, p: Plan)
    requires Framed(p)
  {
    && r.kind == p.kind && r.tsOut == p.tsOut && r.records == p.framing.records && r.stop == p.framing.stop
    && (r.complete <==> Records.NoShort(Classified(p)))
    && (r.complete ==> r.skipped == Records.SkippedOf(Classified(p)))
  }

  /** The batches read as the partition of the decoded rows. */
  ghost predicate Hold(batches: seq<Batch>, p: Plan, batchRows: nat, objects: set<object>)
    requires Framed(p) && batchRows > 0
    reads objects
  {
    AllStand(batches, Partition(Decoded(p), batchRows), objects)
  }

  method ReadRecords(parser: DbnParser, b: BatchBuilder, opt: Options) returns (r: Reading, ghost objects: set<object>)
    requires parser.Valid() && b.Valid() && b.Table().capacity == 0 && opt.batchRows > 0
    requires parser !in b.Table().Repr() && parser !in b.Table().columns.Shared
    modifies parser, b.Table().Repr()
    ensures var p := Plan(b.Table().kind, b.Table().tsOut, Frames(old(parser.Left()), old(parser.StreamEnd()), opt.limit, 0));
            Framed(p) && Follows(r, p) && (r.complete ==> Hold(r.batches, p, opt.batchRows, objects))
  {
    FramesAreFramed(parser.Left(), parser.StreamEnd(), opt.limit);
    var records, stop := parser.ForEachRecord(opt.limit);
    var batches, skipped, complete;
    batches, skipped, complete, objects := BuildBatches(b, records, opt.batchRows);
    r := Reading(b.Table().kind, b.Table().tsOut, records, stop, batches, skipped, complete);
  }

  /** Reads the records behind the metadata, if these can be converted. */
  method ReadBody(parser: DbnParser, md: Metadata, opt: Options) returns (r: Result<Reading, ConvertError>, ghost objects: set<object>)
    requires parser.Valid()
    modifies parser
    ensures match PlanFrom(md, old(parser.Left()), old(parser.StreamEnd()), opt)
            case Failure(e) => r == Failure(e)
            case Success(p) =>
              && r.Success? && Follows(r.value, p)
              && (r.value.complete ==> Hold(r.value.batches, p, opt.batchRows, objects))
  {
    if md.schema.None? {
      return Failure(MixedSchemas), {};
    }
    var b := MakeBatchBuilder(md.schema.value, md.tsOut);
    if b.None? {
      return Failure(UnsupportedSchema(md.schema.value)), {};
    }
    if opt.batchRows <= 0 {
      return Failure(BatchRowsNotPositive), {};
    }
    var reading;
    reading, objects := ReadRecords(parser, b.value, opt);
    r := Success(reading);
  }

  /** Reads a file as it is delivered, chunk by chunk. */
  method ReadFile(d: Delivery, outChunk: nat, opt: Options) returns (r: Result<Reading, ConvertError>, ghost objects: set<object>)
    requires d.Fits(outChunk)
    ensures match PlanBytes(BytesOf(d), EndingOf(d), opt)
            case Failure(e) => r == Failure(e)
            case Success(p) => r.Success? && Follows(r.value, p)
    ensures r.Success? && r.value.complete ==>
              Hold(r.value.batches, PlanBytes(BytesOf(d), EndingOf(d), opt).value, opt.batchRows, objects)
  {
    var parser := new DbnParser(d.steps, d.tail, outChunk);
    var md := parser.ReadMetadata();
    if md.Failure? {
      return Failure(OpenFailed(md.error)), {};
    }
    r, objects := ReadBody(parser, md.value, opt);
  }

  /** The calls that reading a file makes on the writer. */
  function CallsOf(r: Reading): W.Script<Row>
    requires Long(r.records)
  {
    W.Script(ClassifyAll(r.kind, r.tsOut, r.records), if r.stop.EndOfFile? || r.stop.LimitReached? then W.Close else W.Abandon)
  }

  /** `stop` is how reading stopped. */
  datatype Conversion = Conversion(state: W.State<Row>, batches: seq<Batch>, stop: Stop)
  {
    predicate Returned() {
      state.caller.outcome.Returned?
    }

    function Error(): Option<ConvertError> {
      ErrorOf(state.caller.outcome, stop)
    }
  }

  /** convert_file: the parser reads the file chunk by chunk, the builder makes
      batches of the records it yields, and the writer thread runs beside. What
      comes of it is the conversion of the bytes, however they were cut: if it
      returns, the decoded records are written, and the batches of arrays read
      as the row groups; without faults it ends in the error its plan says. */
  method ConvertFile(d: Delivery, outChunk: nat, opt: Options, depth: nat, moves: seq<W.Move>)
    returns (r: Result<Conversion, ConvertError>, ghost objects: set<object>)
    requires d.Fits(outChunk) && depth > 0
    ensures match PlanBytes(BytesOf(d), EndingOf(d), opt)
            case Failure(e) => r == Failure(e)
            case Success(p) =>
              && r.Success? && r.value.state == Convert(p, opt, depth, moves) && r.value.stop == p.framing.stop
              && (r.value.Returned() ==> Written(r.value.state, p, opt.batchRows))
              && (NoFaults(moves) && W.Finished(r.value.state) ==> r.value.Error() == ErrorIn(p))
    ensures r.Success? && r.value.Returned() ==> AllStand(r.value.batches, r.value.state.thread.groups, objects)
  {
    var read;
    read, objects := ReadFile(d, outChunk, opt);
    if read.Failure? {
      return Failure(read.error), objects;
    }
    var reading := read.value;
    ghost var p := PlanBytes(BytesOf(d), EndingOf(d), opt).value;
    var state := Start(W.Config(opt.batchRows, depth), CallsOf(reading), moves);
    r := Success(Conversion(state, reading.batches, reading.stop));
    if NoFaults(moves) && W.Finished(state) {
      FaultlessConversion(p, opt, depth, moves);
    }
    if OutcomeOf(p, opt, depth, moves).Returned? {
      PlanIsWritten(p, opt, depth, moves);
      CloseReturnsEveryRow(W.Config(opt.batchRows, depth), Calls(p), moves);
    }
  }

  /** How the bytes were cut into chunks, how deep the queue was and how the
      threads interleaved leaves no trace in the file, the counts, or the error:
      not in what a conversion returns with, and not in how one without faults
      ends, in whatever error. */
  method ConvertBoth(d1: Delivery, d2: Delivery, chunk1: nat, chunk2: nat, opt: Options, depth1: nat, depth2: nat,
                     moves1: seq<W.Move>, moves2: seq<W.Move>)
    returns (r1: Result<Conversion, ConvertError>, r2: Result<Conversion, ConvertError>, ghost objects: set<object>)
    requires d1.Fits(chunk1) && d2.Fits(chunk2) && depth1 > 0 && depth2 > 0
    requires BytesOf(d1) == BytesOf(d2) && EndingOf(d1) == EndingOf(d2)
    ensures r1.Failure? || r2.Failure? ==> r1 == r2
    ensures r1.Success? && r2.Success? && r1.value.Returned() && r2.value.Returned() ==>
              F.ResultOf(r1.value.state) == F.ResultOf(r2.value.state)
    ensures r1.Success? && r2.Success? && NoFaults(moves1) && NoFaults(moves2) &&
            W.Finished(r1.value.state) && W.Finished(r2.value.state) ==>
              r1.value.Error() == r2.value.Error() && F.ResultOf(r1.value.state) == F.ResultOf(r2.value.state)
    ensures r1.Success? && r2.Success? && r1.value.Returned() && r2.value.Returned() ==>
              && AllStand(r1.value.batches, r2.value.state.thread.groups, objects)
              && AllStand(r2.value.batches, r1.value.state.thread.groups, objects)
  {
    hide PlanBytes, Convert, Batch.ReadsAs;
    ghost var objects1, objects2;
    r1, objects1 := ConvertFile(d1, chunk1, opt, depth1, moves1);
    r2, objects2 := ConvertFile(d2, chunk2, opt, depth2, moves2);
    objects := objects1 + objects2;
    if r1.Success? && NoFaults(moves1) && NoFaults(moves2) && W.Finished(r1.value.state) && W.Finished(r2.value.state) {
      ghost var p := PlanBytes(BytesOf(d1), EndingOf(d1), opt).value;
      FaultlessConversion(p, opt, depth1, moves1);
      FaultlessConversion(p, opt, depth2, moves2);
    }
  }

  // ---- The same on one thread ----

  datatype Sequential = Sequential(batches: seq<Batch>, records: nat, skipped: nat)

  /** `r` is what converting by plan `p` on one thread comes to. */
  ghost predicate Carries(r: Result<Sequential, ConvertError>, p: Plan)
    requires Framed(p)
  {
    match ErrorIn(p)
    case Some(e) => r == Failure(e)
    case None => r.Success? && r.value.records == |p.framing.records| == |Decoded(p)| + r.value.skipped
  }

  /** Builds the batches one by one: they are those the threaded conversion
      writes, and the errors come in the same order. */
  method ConvertSequentially(d: Delivery, outChunk: nat, opt: Options)
    returns (r: Result<Sequential, ConvertError>, ghost objects: set<object>)
    requires d.Fits(outChunk)
    ensures match PlanBytes(BytesOf(d), EndingOf(d), opt)
            case Failure(e) => r == Failure(e)
            case Success(p) => Carries(r, p)
    ensures r.Success? ==>
              Hold(r.value.batches, PlanBytes(BytesOf(d), EndingOf(d), opt).value, opt.batchRows, objects)
  {
    var read;
    read, objects := ReadFile(d, outChunk, opt);
    if read.Failure? {
      return Failure(read.error), objects;
    }
    var reading := read.value;
    if !reading.complete {
      return Failure(ShortRecord), objects;
    }
    if !(reading.stop.EndOfFile? || reading.stop.LimitReached?) {
      return Failure(ReadFailed(reading.stop)), objects;
    }
    ghost var p := PlanBytes(BytesOf(d), EndingOf(d), opt).value;
    Records.RowsAndSkipped(Classified(p));
    r := Success(Sequential(reading.batches, |reading.records|, reading.skipped));
  }

  // ---- From records to a file and back ----

  /** A record of the kind, long enough for its fields. */
  ghost predicate Fits(k: Kind, tsOut: bool, record: seq<byte>) {
    WellFormed(record) && record[1] == KindRtype(k) && |record| >= Want(k, tsOut)
  }

  lemma {:induction false} AllRowsDecode(k: Kind, tsOut: bool, records: seq<seq<byte>>)
    requires forall i :: 0 <= i < |records| ==> |records[i]| >= 16 && Classify(k, tsOut, records[i]).Row?
    ensures var rows := Records.RowsOf(ClassifyAll(k, tsOut, records));
            |rows| == |records| && forall i :: 0 <= i < |records| ==> rows[i] == Classify(k, tsOut, records[i]).row
  {
    if records != [] {
      var n := |records| - 1;
      AllRowsDecode(k, tsOut, records[..n]);
      var all := ClassifyAll(k, tsOut, records);
      assert all[..n] == ClassifyAll(k, tsOut, records[..n]);
      assert all[n] == Classify(k, tsOut, records[n]);
      var rows := Records.RowsOf(all);
      assert rows == Records.RowsOf(all[..n]) + [all[n].row];
      forall i | 0 <= i < |records|
        ensures rows[i] == Classify(k, tsOut, records[i]).row
      {
        assert i < n ==> records[i] == records[..n][i];
      }
    }
  }

  /** The plan of a file of records of one schema is just these records. */
  lemma PlanOfFile(md: Metadata, padding: seq<byte>, records: seq<seq<byte>>, batchRows: nat)
    requires Storable(md) && |EncodeOnto(Store(md), padding)| < U32
    requires md.schema.Some? && md.schema.value in SCHEMAS && batchRows > 0
    requires forall r :: r in records ==> WellFormed(r)
    ensures PlanBytes(FileOf(md, padding, Concat(records)), Clean, Options(0, batchRows))
            == Success(Plan(SCHEMAS[md.schema.value], md.tsOut, Framing(records, EndOfFile, [])))
  {
    OpenFileOf(md, padding, Concat(records), Clean);
    FramesOfRecords(records, 0);
  }

  /** The file holds one row for each record, and from the row the record can
      be read back but for its length byte. */
  ghost predicate HoldsRecords(s: W.State<Row>, k: Kind, tsOut: bool, records: seq<seq<byte>>) {
    var rows := Concat(s.thread.groups);
    && s.caller.footer
    && s.caller.outcome == W.Returned(|records|)
    && |rows| == |records|
    && forall i :: 0 <= i < |rows| ==>
         |records[i]| >= Want(k, tsOut) && WfRow(rows[i]) && Body(rows[i]) == records[i][1..Want(k, tsOut)]
  }

  ghost predicate RecordsFit(k: Kind, tsOut: bool, records: seq<seq<byte>>) {
    forall i :: 0 <= i < |records| ==> Fits(k, tsOut, records[i])
  }

  lemma RecordsRoundTrip(k: Kind, tsOut: bool, records: seq<seq<byte>>, opt: Options, depth: nat, moves: seq<W.Move>)
    requires RecordsFit(k, tsOut, records) && opt.batchRows > 0 && depth > 0 && NoFaults(moves)
    ensures var p := Plan(k, tsOut, Framing(records, EndOfFile, []));
            && Framed(p)
            && (W.Finished(Convert(p, opt, depth, moves)) ==> HoldsRecords(Convert(p, opt, depth, moves), k, tsOut, records))
  {
    var p := Plan(k, tsOut, Framing(records, EndOfFile, []));
    DecodedKeepBodies(k, tsOut, records);
    if W.Finished(Convert(p, opt, depth, moves)) {
      NoFaultsNoLoss(W.Config(opt.batchRows, depth), Calls(p), moves);
      CloseReturnsEveryRow(W.Config(opt.batchRows, depth), Calls(p), moves);
      PartitionIsCut(Decoded(p), opt.batchRows);
    }
  }

  lemma DecodedKeepBodies(k: Kind, tsOut: bool, records: seq<seq<byte>>)
    requires RecordsFit(k, tsOut, records)
    ensures Long(records) && Records.NoShort(ClassifyAll(k, tsOut, records))
    ensures var rows := Records.RowsOf(ClassifyAll(k, tsOut, records));
            |rows| == |records| && forall i :: 0 <= i < |rows| ==>
              |records[i]| >= Want(k, tsOut) && WfRow(rows[i]) && Body(rows[i]) == records[i][1..Want(k, tsOut)]
  {
    AllRowsDecode(k, tsOut, records);
    forall i | 0 <= i < |records|
      ensures var row := Classify(k, tsOut, records[i]).row; WfRow(row) && Body(row) == records[i][1..Want(k, tsOut)]
    {
      RowKeepsBody(k, tsOut, records[i]);
    }
  }

  /** A DBN file of records of one schema, delivered in any chunks and converted
      under any interleaving without faults, gives a file that holds them all,
      and so do the batches of arrays. */
  method ConvertRecords(md: Metadata, padding: seq<byte>, records: seq<seq<byte>>, d: Delivery, outChunk: nat,
                        batchRows: nat, depth: nat, moves: seq<W.Move>) returns (c: Conversion, ghost objects: set<object>)
    requires Storable(md) && |EncodeOnto(Store(md), padding)| < U32
    requires md.schema.Some? && md.schema.value in SCHEMAS && RecordsFit(SCHEMAS[md.schema.value], md.tsOut, records)
    requires d.Fits(outChunk) && BytesOf(d) == FileOf(md, padding, Concat(records)) && EndingOf(d) == Clean
    requires batchRows > 0 && depth > 0 && NoFaults(moves)
    ensures W.Finished(c.state) ==> HoldsRecords(c.state, SCHEMAS[md.schema.value], md.tsOut, records)
    ensures W.Finished(c.state) ==> AllStand(c.batches, c.state.thread.groups, objects)
  {
    RecordsAreWellFormed(SCHEMAS[md.schema.value], md.tsOut, records);
    PlanOfFile(md, padding, records, batchRows);
    RecordsRoundTrip(SCHEMAS[md.schema.value], md.tsOut, records, Options(0, batchRows), depth, moves);
    var r;
    r, objects := ConvertFile(d, outChunk, Options(0, batchRows), depth, moves);
    c := r.value;
  }

  /** And any schedule without faults that keeps running both threads does come
      to that end: after rounds linear in the records the file holds them all. */
  method ConvertRecordsToTheEnd(md: Metadata, padding: seq<byte>, records: seq<seq<byte>>, d: Delivery, outChunk: nat,
                                batchRows: nat, depth: nat, rounds: seq<seq<W.Move>>)
    returns (c: Conversion, ghost objects: set<object>)
    requires Storable(md) && |EncodeOnto(Store(md), padding)| < U32
    requires md.schema.Some? && md.schema.value in SCHEMAS && RecordsFit(SCHEMAS[md.schema.value], md.tsOut, records)
    requires d.Fits(outChunk) && BytesOf(d) == FileOf(md, padding, Concat(records)) && EndingOf(d) == Clean
    requires batchRows > 0 && depth > 0 && NoFaults(Concat(rounds))
    requires |rounds| >= 20 + 14 * |records| && forall r :: r in rounds ==> L.Fair(r)
    ensures W.Finished(c.state) && HoldsRecords(c.state, SCHEMAS[md.schema.value], md.tsOut, records)
    ensures AllStand(c.batches, c.state.thread.groups, objects)
  {
    RecordsAreWellFormed(SCHEMAS[md.schema.value], md.tsOut, records);
    PlanOfFile(md, padding, records, batchRows);
    var r;
    r, objects := ConvertFile(d, outChunk, Options(0, batchRows), depth, Concat(rounds));
    c := r.value;
    ghost var p := Plan(SCHEMAS[md.schema.value], md.tsOut, Framing(records, EndOfFile, []));
    L.FairRunsEnd(W.Config(batchRows, depth), Calls(p), rounds);
    RecordsRoundTrip(p.kind, p.tsOut, records, Options(0, batchRows), depth, Concat(rounds));
  }

  lemma RecordsAreWellFormed(k: Kind, tsOut: bool, records: seq<seq<byte>>)
    requires RecordsFit(k, tsOut, records)
    ensures forall r :: r in records ==> WellFormed(r)
  {
    forall r | r in records
      ensures WellFormed(r)
    {
      var i :| 0 <= i < |records| && records[i] == r;
      assert Fits(k, tsOut, records[i]);
    }
  }
}
