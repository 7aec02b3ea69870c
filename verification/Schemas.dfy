/** The columns of the two schemas, and a row as one cell of each. */
module Schemas {
  import opened Wrappers
  import opened Bytes
  import opened Dbn
  import opened Rows
  import opened ColumnLists

  // ---- Rows across the columns, in the order of the schema ----

  const HEADER_KINDS := [NullableKind, NullableKind, Int32Kind, Int32Kind, Int64Kind]
  const MBO_KINDS := [TextKind, TextKind, NullableKind, NullableKind, Int32Kind, Int64Kind, Int32Kind]
  const TRADES_KINDS := [TextKind, TextKind, Int32Kind, NullableKind, NullableKind, Int32Kind]

  function TailKinds(tsOut: bool): seq<ColumnKind> {
    [Int32Kind, Int64Kind] + if tsOut then [NullableKind] else []
  }

  function Kinds(k: Kind, tsOut: bool): seq<ColumnKind> {
    HEADER_KINDS + (if k.MboKind? then MBO_KINDS else TRADES_KINDS) + TailKinds(tsOut)
  }

  lemma ActionIsText(k: Kind, tsOut: bool)
    ensures |Kinds(k, tsOut)| > 5 && Kinds(k, tsOut)[5] == TextKind
  {
  }

  /** The bits of one slot in each of the columns. */
  function BitsOf(kinds: seq<ColumnKind>): nat {
    if kinds == [] then 0 else kinds[0].Bits() + BitsOf(kinds[1..])
  }

  lemma {:induction false} BitsJoined(a: seq<ColumnKind>, b: seq<ColumnKind>)
    ensures BitsOf(a + b) == BitsOf(a) + BitsOf(b)
  {
    if a == [] {
      assert a + b == b;
    } else {
      assert (a + b)[1..] == a[1..] + b;
      BitsJoined(a[1..], b);
    }
  }

  /** What a row takes in the columns of its schema. */
  function RowBits(k: Kind, tsOut: bool): nat {
    BitsOf(Kinds(k, tsOut))
  }

  lemma SharedBits()
    ensures BitsOf(HEADER_KINDS) == 258 && BitsOf([Int32Kind, Int64Kind]) == 96 && BitsOf([NullableKind]) == 65 && BitsOf([]) == 0
  {
  }

  lemma OwnBits()
    ensures BitsOf(MBO_KINDS) == 274 && BitsOf(TRADES_KINDS) == 210
  {
    assert MBO_KINDS[4..] == [Int32Kind, Int64Kind, Int32Kind];
    assert TRADES_KINDS[3..] == [NullableKind, NullableKind, Int32Kind];
    BitsJoined(MBO_KINDS[..4], MBO_KINDS[4..]);
    BitsJoined(TRADES_KINDS[..3], TRADES_KINDS[3..]);
    assert MBO_KINDS[..4] + MBO_KINDS[4..] == MBO_KINDS && TRADES_KINDS[..3] + TRADES_KINDS[3..] == TRADES_KINDS;
  }

  lemma RowBitsAre(k: Kind, tsOut: bool)
    ensures RowBits(k, tsOut) == (if k.MboKind? then 628 else 564) + if tsOut then 65 else 0
  {
    var own := if k.MboKind? then MBO_KINDS else TRADES_KINDS;
    BitsJoined(HEADER_KINDS + own, TailKinds(tsOut));
    BitsJoined(HEADER_KINDS, own);
    BitsJoined([Int32Kind, Int64Kind], if tsOut then [NullableKind] else []);
    SharedBits();
    OwnBits();
    hide BitsOf;
  }

  function HeadCells(h: Head): seq<Cell> {
    [h.tsRecv, h.tsEvent, Some(h.rtype), Some(h.publisherId), Some(h.instrumentId)]
  }

  function TailCells(t: Tail): seq<Cell> {
    [Some(t.tsInDelta), Some(t.sequence)] + if t.tsOut.Some? then [t.tsOut.value] else []
  }

  /** A row's cells. */
  function RowCells(row: Row): (cells: seq<Cell>)
    ensures |cells| == |Kinds(KindOf(row), row.tail.tsOut.Some?)|
  {
    HeadCells(row.head) + OwnCells(row) + TailCells(row.tail)
  }

  function OwnCells(row: Row): seq<Cell> {
    if row.Mbo? then
      [Some(row.action as int), Some(row.side as int), row.price, row.size, Some(row.channelId), Some(row.orderId),
       Some(row.flags)]
    else
      [Some(row.action as int), Some(row.side as int), Some(row.depth), row.price, row.size, Some(row.flags)]
  }

  function KindOf(row: Row): Kind {
    if row.Mbo? then MboKind else TradeKind
  }

  /** Every value lies in the range of its column's width. */
  predicate CellsFit(row: Row) {
    var kinds, cells := Kinds(KindOf(row), row.tail.tsOut.Some?), RowCells(row);
    forall j :: 0 <= j < |cells| && cells[j].Some? ==> kinds[j].Holds(cells[j].value)
  }

  predicate RowFits(k: Kind, tsOut: bool, row: Row) {
    KindOf(row) == k && row.tail.tsOut.Some? == tsOut && CellsFit(row)
  }

  /** The value of a cell that is not a null. */
  function Known(c: Cell): int {
    if c.Some? then c.value else 0
  }

  function KnownByte(c: Cell): byte {
    if c.Some? && 0 <= c.value < 256 then c.value as byte else 0
  }

  /** The row that has these cells. */
  function RowOf(k: Kind, tsOut: bool, c: seq<Cell>): Row
    requires |c| == |Kinds(k, tsOut)|
  {
    var head := Head(c[0], c[1], Known(c[2]), Known(c[3]), Known(c[4]));
    var at := if k.MboKind? then 12 else 11;
    var tail := Tail(Known(c[at]), Known(c[at + 1]), if tsOut then Some(c[at + 2]) else None);
    if k.MboKind? then
      Mbo(head, KnownByte(c[5]), KnownByte(c[6]), c[7], c[8], Known(c[9]), Known(c[10]), Known(c[11]), tail)
    else
      Trade(head, KnownByte(c[5]), KnownByte(c[6]), Known(c[7]), c[8], c[9], Known(c[10]), tail)
  }

  lemma RowOfCells(row: Row)
    ensures RowOf(KindOf(row), row.tail.tsOut.Some?, RowCells(row)) == row
  {
  }

  // ---- The columns by name ----

  const HEADER_NAMES := ["ts_recv", "ts_event", "rtype", "publisher_id", "instrument_id"]
  const MBO_NAMES := ["action", "side", "price", "size", "channel_id", "order_id", "flags"]
  const TRADES_NAMES := ["action", "side", "depth", "price", "size", "flags"]

  function Names(k: Kind, tsOut: bool): seq<string> {
    HEADER_NAMES + (if k.MboKind? then MBO_NAMES else TRADES_NAMES) + ["ts_in_delta", "sequence"]
    + if tsOut then ["ts_out"] else []
  }

  /** The field of a row that a column's name names. */
  function Named(row: Row, name: string): Option<Cell> {
    match name
    case "ts_recv" => Some(row.head.tsRecv)
    case "ts_event" => Some(row.head.tsEvent)
    case "rtype" => Some(Some(row.head.rtype))
    case "publisher_id" => Some(Some(row.head.publisherId))
    case "instrument_id" => Some(Some(row.head.instrumentId))
    case "action" => Some(Some(row.action as int))
    case "side" => Some(Some(row.side as int))
    case "price" => Some(row.price)
    case "size" => Some(row.size)
    case "flags" => Some(Some(row.flags))
    case "ts_in_delta" => Some(Some(row.tail.tsInDelta))
    case "sequence" => Some(Some(row.tail.sequence))
    case "ts_out" => row.tail.tsOut
    case "channel_id" => if row.Mbo? then Some(Some(row.channelId)) else None
    case "order_id" => if row.Mbo? then Some(Some(row.orderId)) else None
    case "depth" => if row.Trade? then Some(Some(row.depth)) else None
    case _ => None
  }

  /** Every cell of a row is the field its column is named after. */
  lemma CellsAreNamed(row: Row, j: nat)
    requires j < |RowCells(row)|
    ensures var names := Names(KindOf(row), row.tail.tsOut.Some?);
            |names| == |RowCells(row)| && Named(row, names[j]) == Some(RowCells(row)[j])
  {
  }

  /** One column of some rows. */
  function ColumnOf(k: Kind, tsOut: bool, rows: seq<Row>, column: nat): (cells: seq<Cell>)
    requires column < |Kinds(k, tsOut)| && forall i :: 0 <= i < |rows| ==> RowFits(k, tsOut, rows[i])
    ensures |cells| == |rows|
  {
    seq(|rows|, i requires 0 <= i < |rows| && RowFits(k, tsOut, rows[i]) => RowCells(rows[i])[column])
  }

  // ---- What is stored for a record ----

  function Plain(value: int): Raw {
    Raw(value, true)
  }

  function TsRaw(ts: nat): Raw {
    Raw(Signed(ts, U64), ts != UNDEF_TIMESTAMP)
  }

  function HeaderRaws(hd: RecordHeader, recv: nat): seq<Raw> {
    [TsRaw(recv), TsRaw(hd.tsEvent), Plain(hd.rtype), Plain(hd.publisherId), Plain(hd.instrumentId)]
  }

  function TailRaws(delta: int, seqNum: nat, tsOut: bool, outTs: nat): seq<Raw> {
    [Plain(delta), Plain(seqNum)] + if tsOut then [TsRaw(outTs)] else []
  }

  function MboRaws(m: MboMsg, tsOut: bool, outTs: nat): seq<Raw> {
    HeaderRaws(m.hd, m.tsRecv) + MboOwnRaws(m) + TailRaws(m.tsInDelta, m.sequence, tsOut, outTs)
  }

  function MboOwnRaws(m: MboMsg): seq<Raw> {
    [Plain(m.action as int), Plain(m.side as int), Raw(m.price, m.price != UNDEF_PRICE),
     Raw(m.size, m.size != UNDEF_ORDER_SIZE), Plain(m.channelId), Plain(Signed(m.orderId, U64)), Plain(m.flags)]
  }

  function TradeRaws(m: TradeMsg, tsOut: bool, outTs: nat): seq<Raw> {
    HeaderRaws(m.hd, m.tsRecv) + TradeOwnRaws(m) + TailRaws(m.tsInDelta, m.sequence, tsOut, outTs)
  }

  function TradeOwnRaws(m: TradeMsg): seq<Raw> {
    [Plain(m.action as int), Plain(m.side as int), Plain(m.depth), Raw(m.price, m.price != UNDEF_PRICE),
     Raw(m.size, m.size != UNDEF_ORDER_SIZE), Plain(m.flags)]
  }

  /** The values can be stored and are these cells. */
  ghost predicate FitCells(kinds: seq<ColumnKind>, raws: seq<Raw>, cells: seq<Cell>) {
    |kinds| == |raws| == |cells| && forall j :: 0 <= j < |raws| ==> kinds[j].Takes(raws[j]) && raws[j].Cell() == cells[j]
  }

  ghost predicate Stores(raws: seq<Raw>, row: Row) {
    FitCells(Kinds(KindOf(row), row.tail.tsOut.Some?), raws, RowCells(row))
  }

  lemma FitJoined(k1: seq<ColumnKind>, r1: seq<Raw>, c1: seq<Cell>, k2: seq<ColumnKind>, r2: seq<Raw>, c2: seq<Cell>)
    requires FitCells(k1, r1, c1) && FitCells(k2, r2, c2)
    ensures FitCells(k1 + k2, r1 + r2, c1 + c2)
  {
  }

  lemma TsRawFits(ts: nat)
    requires ts < U64
    ensures NullableKind.Takes(TsRaw(ts)) && TsRaw(ts).Cell() == TsCell(ts)
  {
  }

  lemma HeaderRawsFit(hd: RecordHeader, recv: nat)
    requires HeaderInRange(hd) && recv < U64
    ensures FitCells(HEADER_KINDS, HeaderRaws(hd, recv), HeadCells(HeadOf(hd, recv)))
  {
    TsRawFits(recv);
    TsRawFits(hd.tsEvent);
  }

  lemma TailRawsFit(delta: int, seqNum: nat, tsOut: bool, outTs: nat)
    requires InInt32(delta) && seqNum < U32 && outTs < U64
    ensures FitCells(TailKinds(tsOut), TailRaws(delta, seqNum, tsOut, outTs),
                     TailCells(TailOf(delta, seqNum, if tsOut then Some(outTs) else None)))
  {
    TsRawFits(outTs);
  }

  /** What is stored for a record are the cells of its row, each in the range
      of its column, nulls included. */
  lemma MboRawsFit(m: MboMsg, tsOut: bool, outTs: nat)
    requires MboInRange(m) && outTs < U64
    ensures var raws, row := MboRaws(m, tsOut, outTs), MboRow(m, if tsOut then Some(outTs) else None);
            RowFits(MboKind, tsOut, row) && Stores(raws, row)
  {
    HeaderRawsFit(m.hd, m.tsRecv);
    TailRawsFit(m.tsInDelta, m.sequence, tsOut, outTs);
    var row := MboRow(m, if tsOut then Some(outTs) else None);
    assert FitCells(MBO_KINDS, MboOwnRaws(m), OwnCells(row));
    FitJoined(HEADER_KINDS, HeaderRaws(m.hd, m.tsRecv), HeadCells(row.head), MBO_KINDS, MboOwnRaws(m), OwnCells(row));
    FitJoined(HEADER_KINDS + MBO_KINDS, HeaderRaws(m.hd, m.tsRecv) + MboOwnRaws(m), HeadCells(row.head) + OwnCells(row),
              TailKinds(tsOut), TailRaws(m.tsInDelta, m.sequence, tsOut, outTs), TailCells(row.tail));
  }

  lemma TradeRawsFit(m: TradeMsg, tsOut: bool, outTs: nat)
    requires TradeInRange(m) && outTs < U64
    ensures var raws, row := TradeRaws(m, tsOut, outTs), TradeRow(m, if tsOut then Some(outTs) else None);
            RowFits(TradeKind, tsOut, row) && Stores(raws, row)
  {
    HeaderRawsFit(m.hd, m.tsRecv);
    TailRawsFit(m.tsInDelta, m.sequence, tsOut, outTs);
    var row := TradeRow(m, if tsOut then Some(outTs) else None);
    assert FitCells(TRADES_KINDS, TradeOwnRaws(m), OwnCells(row));
    FitJoined(HEADER_KINDS, HeaderRaws(m.hd, m.tsRecv), HeadCells(row.head), TRADES_KINDS, TradeOwnRaws(m), OwnCells(row));
    FitJoined(HEADER_KINDS + TRADES_KINDS, HeaderRaws(m.hd, m.tsRecv) + TradeOwnRaws(m), HeadCells(row.head) + OwnCells(row),
              TailKinds(tsOut), TailRaws(m.tsInDelta, m.sequence, tsOut, outTs), TailCells(row.tail));
  }

  /** The row of any record lies in its columns' ranges. */
  lemma DecodedRowFits(k: Kind, tsOut: bool, record: seq<byte>)
    requires |record| >= 16 && Classify(k, tsOut, record).Row?
    ensures RowFits(k, tsOut, Classify(k, tsOut, record).row)
  {
    Powers();
    var outTs := if tsOut then LoadTsOut(k, tsOut, record).value else 0;
    if k.MboKind? {
      MboRawsFit(LoadMbo(record), tsOut, outTs);
    } else {
      TradeRawsFit(LoadTrade(record), tsOut, outTs);
    }
  }

  /** One more row is one more cell at the end of every column. */
  lemma ColumnOfPush(k: Kind, tsOut: bool, rows: seq<Row>, row: Row, column: nat)
    requires column < |Kinds(k, tsOut)| && RowFits(k, tsOut, row)
    requires forall i :: 0 <= i < |rows| ==> RowFits(k, tsOut, rows[i])
    ensures forall i :: 0 <= i <= |rows| ==> RowFits(k, tsOut, (rows + [row])[i])
    ensures ColumnOf(k, tsOut, rows + [row], column) == ColumnOf(k, tsOut, rows, column) + [RowCells(row)[column]]
  {
  }
}
