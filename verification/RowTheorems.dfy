/** A row loses nothing of its record but the length byte and what lies past
    the record's fields. */
module RowTheorems {
  import opened Bytes
  import opened Wrappers
  import opened Dbn
  import opened Rows

  const I64_MAX: int := 0x7FFF_FFFF_FFFF_FFFF

  // ---- Cells back to numbers: a null is the sentinel it came from ----

  predicate WfTs(c: Option<int>) {
    c.Some? ==> -I64_MAX - 1 <= c.value <= I64_MAX && c.value != -1
  }

  function TsOfCell(c: Option<int>): nat
    requires WfTs(c)
  {
    if c.None? then UNDEF_TIMESTAMP else Unsigned(c.value, U64)
  }

  predicate WfPrice(c: Option<int>) {
    c.Some? ==> -I64_MAX - 1 <= c.value < I64_MAX
  }

  function PriceOfCell(c: Option<int>): nat
    requires WfPrice(c)
  {
    Unsigned(if c.None? then UNDEF_PRICE else c.value, U64)
  }

  predicate WfSize(c: Option<int>) {
    c.Some? ==> 0 <= c.value < UNDEF_ORDER_SIZE
  }

  function SizeOfCell(c: Option<int>): nat
    requires WfSize(c)
  {
    if c.None? then UNDEF_ORDER_SIZE else c.value
  }

  predicate WfHead(h: Head, rtype: byte) {
    && WfTs(h.tsRecv) && WfTs(h.tsEvent) && h.rtype == rtype
    && 0 <= h.publisherId < 0x1_0000 && 0 <= h.instrumentId < U32
  }

  predicate WfTail(t: Tail) {
    && -0x8000_0000 <= t.tsInDelta < 0x8000_0000 && 0 <= t.sequence < U32
    && (t.tsOut.Some? ==> WfTs(t.tsOut.value))
  }

  function RowRtype(row: Row): byte {
    if row.Mbo? then RTYPE_MBO else RTYPE_MBP_0
  }

  predicate WfRow(row: Row) {
    && WfHead(row.head, RowRtype(row)) && WfTail(row.tail) && WfPrice(row.price) && WfSize(row.size)
    && 0 <= row.flags < 256
    && (if row.Mbo? then 0 <= row.channelId < 256 && -I64_MAX - 1 <= row.orderId <= I64_MAX
        else 0 <= row.depth < 256)
  }

  // ---- Rows back to bytes ----

  function HeadBytes(h: Head, rtype: byte, rest: seq<byte>): seq<byte>
    requires WfHead(h, rtype)
  {
    [rtype] + (ToLE(h.publisherId, 2) + (ToLE(h.instrumentId, 4) + (ToLE(TsOfCell(h.tsEvent), 8) + rest)))
  }

  function TailBytes(recv: Option<int>, t: Tail): seq<byte>
    requires WfTs(recv) && WfTail(t)
  {
    ToLE(TsOfCell(recv), 8) + (ToLE(Unsigned(t.tsInDelta, U32), 4) + (ToLE(t.sequence, 4) +
      if t.tsOut.Some? then ToLE(TsOfCell(t.tsOut.value), 8) else []))
  }

  function MboBytes(orderId: int, price: nat, size: nat, flags: byte, channelId: byte, action: byte, side: byte,
                    rest: seq<byte>): seq<byte>
    requires -I64_MAX - 1 <= orderId <= I64_MAX
  {
    ToLE(Unsigned(orderId, U64), 8) + (ToLE(price, 8) + (ToLE(size, 4) +
      ([flags] + ([channelId] + ([action] + ([side] + rest))))))
  }

  function TradeBytes(price: nat, size: nat, action: byte, side: byte, flags: byte, depth: byte,
                      rest: seq<byte>): seq<byte> {
    ToLE(price, 8) + (ToLE(size, 4) + ([action] + ([side] + ([flags] + ([depth] + rest)))))
  }

  /** The record a row came from, from its second byte on. */
  function Body(row: Row): seq<byte>
    requires WfRow(row)
  {
    var tail := TailBytes(row.head.tsRecv, row.tail);
    HeadBytes(row.head, RowRtype(row),
      if row.Mbo? then
        MboBytes(row.orderId, PriceOfCell(row.price), SizeOfCell(row.size), row.flags, row.channelId, row.action,
                 row.side, tail)
      else
        TradeBytes(PriceOfCell(row.price), SizeOfCell(row.size), row.action, row.side, row.flags, row.depth, tail))
  }

  lemma NumBytes(r: seq<byte>, at: nat, n: nat, end: nat)
    requires at + n <= end <= |r|
    ensures r[at..end] == ToLE(Num(r, at, n), n) + r[at + n..end]
  {
    ToFromLE(r[at..at + n]);
  }

  lemma ByteBytes(r: seq<byte>, at: nat, end: nat)
    requires at < end <= |r|
    ensures r[at..end] == [r[at]] + r[at + 1..end]
  {
  }

  lemma TsBack(ts: nat)
    requires ts < U64
    ensures WfTs(TsCell(ts)) && TsOfCell(TsCell(ts)) == ts
  {
  }

  lemma HeadBack(r: seq<byte>, recv: nat, end: nat)
    requires 16 <= end <= |r| && recv < U64
    ensures var h := HeadOf(LoadHeader(r), recv);
            WfHead(h, r[1]) && TsOfCell(h.tsRecv) == recv && r[1..end] == HeadBytes(h, r[1], r[16..end])
  {
    Powers();
    TsBack(recv);
    TsBack(Num(r, 8, 8));
    HeadFieldsBack(r, end);
  }

  lemma HeadFieldsBack(r: seq<byte>, end: nat)
    requires 16 <= end <= |r|
    ensures r[1..end] ==
            [r[1]] + (ToLE(Num(r, 2, 2), 2) + (ToLE(Num(r, 4, 4), 4) + (ToLE(Num(r, 8, 8), 8) + r[16..end])))
  {
    ByteBytes(r, 1, end);
    NumBytes(r, 2, 2, end);
    NumBytes(r, 4, 4, end);
    NumBytes(r, 8, 8, end);
  }

  lemma TailBack(r: seq<byte>, at: nat, tsOut: bool, end: nat)
    requires end == at + 16 + (if tsOut then 8 else 0) && end <= |r|
    ensures var recv := TsCell(Num(r, at, 8));
            var t := TailOf(Signed(Num(r, at + 8, 4), U32), Num(r, at + 12, 4),
                            if tsOut then Some(Num(r, at + 16, 8)) else None);
            WfTs(recv) && WfTail(t) && r[at..end] == TailBytes(recv, t)
  {
    Powers();
    TsBack(Num(r, at, 8));
    if tsOut {
      TsBack(Num(r, at + 16, 8));
    }
    TailFieldsBack(r, at, tsOut, end);
  }

  lemma TailFieldsBack(r: seq<byte>, at: nat, tsOut: bool, end: nat)
    requires end == at + 16 + (if tsOut then 8 else 0) && end <= |r|
    ensures r[at..end] == ToLE(Num(r, at, 8), 8) + (ToLE(Num(r, at + 8, 4), 4) + (ToLE(Num(r, at + 12, 4), 4) +
                            if tsOut then ToLE(Num(r, at + 16, 8), 8) else []))
  {
    NumBytes(r, at, 8, end);
    NumBytes(r, at + 8, 4, end);
    NumBytes(r, at + 12, 4, end);
    if tsOut {
      NumBytes(r, at + 16, 8, end);
      assert r[end..end] == [];
    }
  }

  lemma PriceBack(raw: nat)
    requires raw < U64
    ensures WfPrice(PriceCell(Signed(raw, U64))) && PriceOfCell(PriceCell(Signed(raw, U64))) == raw
  {
  }

  lemma SizeBack(raw: nat)
    requires raw < U32
    ensures WfSize(SizeCell(raw)) && SizeOfCell(SizeCell(raw)) == raw
  {
  }

  lemma MboMiddleBack(r: seq<byte>, end: nat)
    requires 40 <= end <= |r|
    ensures MboBytes(Signed(Num(r, 16, 8), U64), Num(r, 24, 8), Num(r, 32, 4), r[36], r[37], r[38], r[39], r[40..end])
            == r[16..end]
  {
    Powers();
    NumBytes(r, 16, 8, end);
    NumBytes(r, 24, 8, end);
    NumBytes(r, 32, 4, end);
    ByteBytes(r, 36, end);
    ByteBytes(r, 37, end);
    ByteBytes(r, 38, end);
    ByteBytes(r, 39, end);
  }

  lemma TradeMiddleBack(r: seq<byte>, end: nat)
    requires 32 <= end <= |r|
    ensures TradeBytes(Num(r, 16, 8), Num(r, 24, 4), r[28], r[29], r[30], r[31], r[32..end]) == r[16..end]
  {
    NumBytes(r, 16, 8, end);
    NumBytes(r, 24, 4, end);
    ByteBytes(r, 28, end);
    ByteBytes(r, 29, end);
    ByteBytes(r, 30, end);
    ByteBytes(r, 31, end);
  }

  lemma MboBack(r: seq<byte>, tsOut: bool)
    requires |r| >= Want(MboKind, tsOut) && r[1] == RTYPE_MBO
    ensures var row := MboRow(LoadMbo(r), LoadTsOut(MboKind, tsOut, r));
            WfRow(row) && Body(row) == r[1..Want(MboKind, tsOut)]
  {
    Powers();
    var end := Want(MboKind, tsOut);
    HeadBack(r, Num(r, 40, 8), end);
    TailBack(r, 40, tsOut, end);
    PriceBack(Num(r, 24, 8));
    SizeBack(Num(r, 32, 4));
    MboMiddleBack(r, end);
  }

  lemma TradeBack(r: seq<byte>, tsOut: bool)
    requires |r| >= Want(TradeKind, tsOut) && r[1] == RTYPE_MBP_0
    ensures var row := TradeRow(LoadTrade(r), LoadTsOut(TradeKind, tsOut, r));
            WfRow(row) && Body(row) == r[1..Want(TradeKind, tsOut)]
  {
    Powers();
    var end := Want(TradeKind, tsOut);
    HeadBack(r, Num(r, 32, 8), end);
    TailBack(r, 32, tsOut, end);
    PriceBack(Num(r, 16, 8));
    SizeBack(Num(r, 24, 4));
    TradeMiddleBack(r, end);
  }

  /** The bytes of a record from the second on, `ts_out` included, can be read
      back from its row. */
  lemma RowKeepsBody(k: Kind, tsOut: bool, r: seq<byte>)
    requires |r| >= 16 && Classify(k, tsOut, r).Row?
    ensures var row := Classify(k, tsOut, r).row;
            WfRow(row) && Body(row) == r[1..Want(k, tsOut)]
  {
    if k.MboKind? {
      MboBack(r, tsOut);
    } else {
      TradeBack(r, tsOut);
    }
  }

  /** So equal rows come from equal records, but for the length byte and what
      lies past the fields. */
  lemma EqualRowsEqualBodies(k: Kind, tsOut: bool, r1: seq<byte>, r2: seq<byte>)
    requires |r1| >= 16 && |r2| >= 16 && Classify(k, tsOut, r1).Row?
    requires Classify(k, tsOut, r1) == Classify(k, tsOut, r2)
    ensures r1[1..Want(k, tsOut)] == r2[1..Want(k, tsOut)]
  {
    RowKeepsBody(k, tsOut, r1);
    RowKeepsBody(k, tsOut, r2);
  }
}
