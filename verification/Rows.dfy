/** The rows the two schemas write, and the wire records they come from. */
module Rows {
  import opened Bytes
  import opened Wrappers
  import opened Dbn
  import Records

  datatype RecordHeader = RecordHeader(length: nat, rtype: nat, publisherId: nat, instrumentId: nat, tsEvent: nat)

  datatype MboMsg = MboMsg(hd: RecordHeader, orderId: nat, price: int, size: nat, flags: nat, channelId: nat,
                           action: byte, side: byte, tsRecv: nat, tsInDelta: int, sequence: nat)

  datatype TradeMsg = TradeMsg(hd: RecordHeader, price: int, size: nat, action: byte, side: byte, flags: nat,
                               depth: nat, tsRecv: nat, tsInDelta: int, sequence: nat)

  // ---- The values the structs' fields can have ----

  predicate HeaderInRange(hd: RecordHeader) {
    hd.rtype < 0x100 && hd.publisherId < 0x1_0000 && hd.instrumentId < U32 && hd.tsEvent < U64
  }

  predicate MboInRange(m: MboMsg) {
    && HeaderInRange(m.hd) && m.orderId < U64 && InInt64(m.price) && m.size < U32 && m.flags < 0x100
    && m.channelId < 0x100 && m.tsRecv < U64 && InInt32(m.tsInDelta) && m.sequence < U32
  }

  predicate TradeInRange(m: TradeMsg) {
    && HeaderInRange(m.hd) && InInt64(m.price) && m.size < U32 && m.flags < 0x100
    && m.depth < 0x100 && m.tsRecv < U64 && InInt32(m.tsInDelta) && m.sequence < U32
  }

  /** The unsigned number in `n` bytes of a record. */
  function Num(record: seq<byte>, at: nat, n: nat): (v: nat)
    requires at + n <= |record|
    ensures v < Pow256(n)
  {
    FromLE(record[at..at + n])
  }

  function LoadHeader(r: seq<byte>): (hd: RecordHeader)
    requires |r| >= 16
    ensures HeaderInRange(hd)
  {
    Powers();
    RecordHeader(r[0], r[1], Num(r, 2, 2), Num(r, 4, 4), Num(r, 8, 8))
  }

  function LoadMbo(r: seq<byte>): (m: MboMsg)
    requires |r| >= MBO_LEN
    ensures MboInRange(m)
  {
    Powers();
    MboMsg(LoadHeader(r), Num(r, 16, 8), Signed(Num(r, 24, 8), U64), Num(r, 32, 4), r[36], r[37], r[38], r[39],
           Num(r, 40, 8), Signed(Num(r, 48, 4), U32), Num(r, 52, 4))
  }

  function LoadTrade(r: seq<byte>): (m: TradeMsg)
    requires |r| >= TRADE_LEN
    ensures TradeInRange(m)
  {
    Powers();
    TradeMsg(LoadHeader(r), Signed(Num(r, 16, 8), U64), Num(r, 24, 4), r[28], r[29], r[30], r[31],
             Num(r, 32, 8), Signed(Num(r, 40, 4), U32), Num(r, 44, 4))
  }

  // ---- Rows: one value per column, None for a null ----

  datatype Head = Head(tsRecv: Option<int>, tsEvent: Option<int>, rtype: int, publisherId: int, instrumentId: int)

  /** `tsOut` is None when the file has no such column. */
  datatype Tail = Tail(tsInDelta: int, sequence: int, tsOut: Option<Option<int>>)

  datatype Row =
    | Mbo(head: Head, action: byte, side: byte, price: Option<int>, size: Option<int>, channelId: int, orderId: int,
          flags: int, tail: Tail)
    | Trade(head: Head, action: byte, side: byte, depth: int, price: Option<int>, size: Option<int>, flags: int,
            tail: Tail)

  function TsCell(ts: nat): Option<int> {
    if ts == UNDEF_TIMESTAMP then None else Some(Signed(ts, U64))
  }

  function PriceCell(price: int): Option<int> {
    if price == UNDEF_PRICE then None else Some(price)
  }

  function SizeCell(size: nat): Option<int> {
    if size == UNDEF_ORDER_SIZE then None else Some(size)
  }

  function HeadOf(hd: RecordHeader, recv: nat): Head {
    Head(TsCell(recv), TsCell(hd.tsEvent), hd.rtype, hd.publisherId, hd.instrumentId)
  }

  function TailOf(delta: int, sequence: nat, tsOut: Option<nat>): Tail {
    Tail(delta, sequence, if tsOut.None? then None else Some(TsCell(tsOut.value)))
  }

  function MboRow(m: MboMsg, tsOut: Option<nat>): Row {
    Mbo(HeadOf(m.hd, m.tsRecv), m.action, m.side, PriceCell(m.price), SizeCell(m.size), m.channelId,
        Signed(m.orderId, U64), m.flags, TailOf(m.tsInDelta, m.sequence, tsOut))
  }

  function TradeRow(m: TradeMsg, tsOut: Option<nat>): Row {
    Trade(HeadOf(m.hd, m.tsRecv), m.action, m.side, m.depth, PriceCell(m.price), SizeCell(m.size), m.flags,
          TailOf(m.tsInDelta, m.sequence, tsOut))
  }

  // ---- What a builder makes of a framed record ----

  datatype Kind = MboKind | TradeKind

  function KindLen(k: Kind): nat {
    if k.MboKind? then MBO_LEN else TRADE_LEN
  }

  function KindRtype(k: Kind): byte {
    if k.MboKind? then RTYPE_MBO else RTYPE_MBP_0
  }

  function Want(k: Kind, tsOut: bool): nat {
    KindLen(k) + if tsOut then TS_OUT_LEN else 0
  }

  function LoadTsOut(k: Kind, tsOut: bool, r: seq<byte>): Option<nat>
    requires |r| >= Want(k, tsOut)
  {
    if tsOut then Some(Num(r, KindLen(k), TS_OUT_LEN)) else None
  }

  /** Another record type is skipped, a short record refused. A longer one is
      taken and what lies past the struct ignored. */
  function Classify(k: Kind, tsOut: bool, r: seq<byte>): Records.Record<Row>
    requires |r| >= 16
  {
    if r[1] != KindRtype(k) then Records.Other
    else if |r| < Want(k, tsOut) then Records.Short
    else Records.Row(if k.MboKind? then MboRow(LoadMbo(r), LoadTsOut(k, tsOut, r))
                    else TradeRow(LoadTrade(r), LoadTsOut(k, tsOut, r)))
  }
}
