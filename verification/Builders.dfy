/** The batch builders of the two schemas: columns filled record by record and
    handed over as batches of arrays. */
module Builders {
  import opened Wrappers
  import opened Bytes
  import opened Dbn
  import opened Rows
  import opened Batches
  import opened Columns
  import opened ColumnLists
  import opened Schemas
  import Records

  // ---- Batches ----

  ghost predicate AllFit(k: Kind, tsOut: bool, rows: seq<Row>) {
    forall i :: 0 <= i < |rows| ==> RowFits(k, tsOut, rows[i])
  }

  /** A finished batch: one array a column. */
  datatype Batch = Batch(kind: Kind, tsOut: bool, length: nat, arrays: seq<Array>)
  {
    ghost predicate Apart(objects: set<object>) {
      forall k :: 0 <= k < |arrays| ==> arrays[k].Footprint() !! objects
    }

    ghost function Footprint(): set<object> {
      set k, o | 0 <= k < |arrays| && o in arrays[k].Footprint() :: o
    }

    ghost predicate Valid()
      reads Footprint()
    {
      && |arrays| == |Kinds(kind, tsOut)|
      && forall k :: 0 <= k < |arrays| ==> arrays[k].Footprint() <= Footprint() && arrays[k].Valid() && arrays[k].Length() == length
    }

    /** The rows before the first that cannot be read. */
    function Readable(): nat {
      if length < INT32_LIMIT then length else INT32_LIMIT - 1
    }

    /** Every array has a cell in slot `i`. */
    ghost predicate Complete(i: nat)
      requires Valid() && i < length
      reads Footprint()
    {
      forall k :: 0 <= k < |arrays| ==> arrays[k].Footprint() <= Footprint() && arrays[k].At(i).Some?
    }

    ghost function CellsAt(i: nat): (cells: seq<Cell>)
      requires Valid() && i < length && Complete(i)
      reads Footprint()
      ensures |cells| == |arrays| && forall k :: 0 <= k < |arrays| ==> arrays[k].At(i) == Some(cells[k])
    {
      seq(|arrays|, k requires 0 <= k < |arrays| && Valid() && i < length && Complete(i) reads Footprint() =>
        arrays[k].At(i).value)
    }

    /** A row read across the arrays. */
    ghost function At(i: nat): Option<Row>
      requires Valid() && i < length
      reads Footprint()
    {
      if Complete(i) then Some(RowOf(kind, tsOut, CellsAt(i))) else None
    }

    /** The columns read as those of the rows. */
    ghost predicate Reads(rows: seq<Row>)
      reads Footprint()
    {
      && AllFit(kind, tsOut, rows) && length == |rows| && |arrays| == |Kinds(kind, tsOut)|
      && forall k :: 0 <= k < |arrays| ==>
           && arrays[k].Footprint() <= Footprint() && arrays[k].Reads(ColumnOf(kind, tsOut, rows, k))
           && (arrays[k].Text? <==> Kinds(kind, tsOut)[k].TextKind?)
    }

    /** The batch reads as the rows, up to the first row that cannot be read. */
    ghost predicate ReadsAs(rows: seq<Row>)
      reads Footprint()
    {
      && Valid() && length == |rows|
      && (forall i :: 0 <= i < Readable() ==> At(i) == Some(rows[i]))
      && (Readable() < length ==> At(Readable()) == None)
    }

    lemma SlotsRead(rows: seq<Row>, i: nat)
      requires Reads(rows) && i < Readable()
      ensures Valid() && Complete(i) && CellsAt(i) == RowCells(rows[i])
    {
      assert RowFits(kind, tsOut, rows[i]);
      forall k | 0 <= k < |arrays|
        ensures arrays[k].At(i) == Some(RowCells(rows[i])[k])
      {
        SlotRead(rows, i, k);
      }
    }

    lemma SlotRead(rows: seq<Row>, i: nat, k: nat)
      requires Reads(rows) && i < Readable() && k < |arrays|
      ensures Valid() && arrays[k].At(i) == Some(RowCells(rows[i])[k])
    {
      arrays[k].ReadsAt(ColumnOf(kind, tsOut, rows, k), arrays[k].Readable(), i);
    }

    lemma RowsRead(rows: seq<Row>)
      requires Reads(rows)
      ensures ReadsAs(rows)
    {
      ActionIsText(kind, tsOut);
      forall i | 0 <= i < Readable()
        ensures Valid() && At(i) == Some(rows[i])
      {
        SlotsRead(rows, i);
        RowOfCells(rows[i]);
      }
    }

    /** The same, with the buffers of the batch among `objects`. */
    ghost predicate Stands(rows: seq<Row>, objects: set<object>)
      reads objects
    {
      Footprint() <= objects && ReadsAs(rows)
    }

    /** A batch reads back in full exactly if it has fewer than 2^31 rows. */
    lemma ReadsInFullIff(rows: seq<Row>)
      requires ReadsAs(rows)
      ensures (forall i :: 0 <= i < length ==> At(i) == Some(rows[i])) <==> length < INT32_LIMIT
    {
    }
  }

  /** What append() does: takes the record, skips it, or throws. */
  datatype Appended = Taken | Skipped | Threw

  // ---- The builders ----

  /** The columns of a builder with its row count and reservation; `taken` are
      the rows stored since the last batch. */
  class Table {
    const kind: Kind
    const tsOut: bool
    const columns: ColumnList
    var rows: nat
    var capacity: nat
    ghost var taken: seq<Row>

    ghost function Repr(): set<object>
      reads columns
    {
      {this} + columns.Repr
    }

    /** Column by column, the cells are those of the rows taken. */
    ghost predicate Valid()
      reads this, columns, columns.Repr, columns.Shared
    {
      && this !in columns.Repr && this !in columns.Shared && columns.Valid()
      && |columns.columns| == |Kinds(kind, tsOut)|
      && (forall k :: 0 <= k < |columns.columns| ==> columns.columns[k].Kind() == Kinds(kind, tsOut)[k])
      && rows == columns.count == |taken| <= capacity && AllFit(kind, tsOut, taken)
      && columns.room == (if capacity == 0 then None else Some(capacity))
      && (forall k :: 0 <= k < |columns.columns| ==> columns.Table()[k] == ColumnOf(kind, tsOut, taken, k))
    }

    constructor (kind: Kind, tsOut: bool)
      ensures Valid() && rows == capacity == 0 && this.kind == kind && this.tsOut == tsOut
      ensures fresh(Repr()) && columns.Shared == {}
    {
      this.kind, this.tsOut := kind, tsOut;
      columns := new ColumnList(Kinds(kind, tsOut));
      rows, capacity, taken := 0, 0, [];
    }

    method Reserve(n: nat)
      requires Valid() && capacity == 0 && n > 0
      modifies Repr()
      ensures Valid() && capacity == n && taken == []
      ensures fresh(Repr() - old(Repr())) && fresh(columns.Shared - old(columns.Shared))
    {
      columns.Reserve(n);
      rows, capacity, taken := 0, n, [];
    }

    /** Stores one row, a value in every column. */
    method Store(raws: seq<Raw>, ghost row: Row)
      requires Valid() && rows < capacity && RowFits(kind, tsOut, row) && Stores(raws, row)
      modifies Repr()
      ensures Valid() && taken == old(taken) + [row] && capacity == old(capacity)
      ensures Repr() == old(Repr()) && columns.Shared == old(columns.Shared)
    {
      hide ColumnList.Valid, ColumnList.Table;
      columns.Set(rows, raws);
      rows, taken := rows + 1, taken + [row];
      forall k | 0 <= k < |columns.columns|
        ensures AllFit(kind, tsOut, taken) && columns.Table()[k] == ColumnOf(kind, tsOut, taken, k)
      {
        ColumnOfPush(kind, tsOut, old(taken), row, k);
      }
    }

    /** Hands the rows over as a batch and starts over without a reservation. */
    method Finish() returns (b: Batch, ghost objects: set<object>)
      requires Valid() && capacity > 0
      modifies Repr()
      ensures Valid() && capacity == 0 && taken == []
      ensures Repr() <= old(Repr()) && columns.Shared == old(columns.Shared)
      ensures b.kind == kind && b.tsOut == tsOut && b.Stands(old(taken), objects) && objects !! Repr()
    {
      hide ColumnList.Valid, ColumnList.Table, Array.Reads, Batch.ReadsAs, Kinds, ColumnOf;
      var arrays := columns.Finish(rows, {this});
      b := Batch(kind, tsOut, rows, arrays);
      rows, capacity, taken := 0, 0, [];
      b.RowsRead(old(taken));
      objects := b.Footprint();
    }
  }

  class MboBuilder {
    const table: Table

    constructor (tsOut: bool)
      ensures table.Valid() && table.kind == MboKind && table.tsOut == tsOut && table.capacity == 0
      ensures fresh(table) && fresh(table.Repr()) && table.columns.Shared == {}
    {
      table := new Table(MboKind, tsOut);
    }

    /** Appends one framed record; the caller has reserved room for it. */
    method Append(record: seq<byte>) returns (r: Appended)
      requires table.Valid() && table.kind == MboKind
      requires |record| >= 16 && (record[1] == RTYPE_MBO ==> table.rows < table.capacity)
      modifies table.Repr()
      ensures table.Valid() && Appends(table.taken, r, old(table.taken), Classify(MboKind, table.tsOut, record))
      ensures table.capacity == old(table.capacity)
      ensures table.Repr() == old(table.Repr()) && table.columns.Shared == old(table.columns.Shared)
    {
      if record[1] != RTYPE_MBO {
        return Skipped;
      }
      var outTs := UNDEF_TIMESTAMP;
      if |record| < MBO_LEN + if table.tsOut then TS_OUT_LEN else 0 {
        return Threw;
      }
      var m := LoadMbo(record);
      if table.tsOut {
        outTs := Num(record, MBO_LEN, TS_OUT_LEN);
      }
      MboRawsFit(m, table.tsOut, outTs);
      table.Store(MboRaws(m, table.tsOut, outTs), Classify(MboKind, table.tsOut, record).row);
      r := Taken;
    }
  }

  class TradesBuilder {
    const table: Table

    constructor (tsOut: bool)
      ensures table.Valid() && table.kind == TradeKind && table.tsOut == tsOut && table.capacity == 0
      ensures fresh(table) && fresh(table.Repr()) && table.columns.Shared == {}
    {
      table := new Table(TradeKind, tsOut);
    }

    /** Appends one framed record; the caller has reserved room for it. */
    method Append(record: seq<byte>) returns (r: Appended)
      requires table.Valid() && table.kind == TradeKind
      requires |record| >= 16 && (record[1] == RTYPE_MBP_0 ==> table.rows < table.capacity)
      modifies table.Repr()
      ensures table.Valid() && Appends(table.taken, r, old(table.taken), Classify(TradeKind, table.tsOut, record))
      ensures table.capacity == old(table.capacity)
      ensures table.Repr() == old(table.Repr()) && table.columns.Shared == old(table.columns.Shared)
    {
      if record[1] != RTYPE_MBP_0 {
        return Skipped;
      }
      var outTs := UNDEF_TIMESTAMP;
      if |record| < TRADE_LEN + if table.tsOut then TS_OUT_LEN else 0 {
        return Threw;
      }
      var m := LoadTrade(record);
      if table.tsOut {
        outTs := Num(record, TRADE_LEN, TS_OUT_LEN);
      }
      TradeRawsFit(m, table.tsOut, outTs);
      table.Store(TradeRaws(m, table.tsOut, outTs), Classify(TradeKind, table.tsOut, record).row);
      r := Taken;
    }
  }

  /** A record of another type is skipped, a short one throws, and neither leaves
      a trace; any other is one more row. */
  ghost predicate Appends(after: seq<Row>, r: Appended, before: seq<Row>, record: Records.Record<Row>) {
    match record
    case Other => r == Skipped && after == before
    case Short => r == Threw && after == before
    case Row(row) => r == Taken && after == before + [row]
  }

  /** The builder of a schema, behind one interface. */
  datatype BatchBuilder = MboRef(mbo: MboBuilder) | TradesRef(trades: TradesBuilder)
  {
    function Table(): Table {
      if MboRef? then mbo.table else trades.table
    }

    ghost predicate Valid()
      reads Table(), Table().columns, Table().columns.Repr, Table().columns.Shared
    {
      Table().Valid() && Table().kind == if MboRef? then MboKind else TradeKind
    }

    method Append(record: seq<byte>) returns (r: Appended)
      requires Valid() && |record| >= 16
      requires record[1] == KindRtype(Table().kind) ==> Table().rows < Table().capacity
      modifies Table().Repr()
      ensures Valid() && Appends(Table().taken, r, old(Table().taken), Classify(Table().kind, Table().tsOut, record))
      ensures Table().capacity == old(Table().capacity)
      ensures Table().Repr() == old(Table().Repr()) && Table().columns.Shared == old(Table().columns.Shared)
    {
      match this
      case MboRef(b) => r := b.Append(record);
      case TradesRef(b) => r := b.Append(record);
    }
  }

  const SCHEMAS := map[SCHEMA_MBO := MboKind, SCHEMA_TRADES := TradeKind]

  /** Only two schemas have a builder. */
  method MakeBatchBuilder(schema: nat, tsOut: bool) returns (b: Option<BatchBuilder>)
    ensures b.None? <==> schema !in SCHEMAS
    ensures b.Some? ==> b.value.Valid() && b.value.Table().capacity == 0
    ensures b.Some? ==> fresh(b.value.Table().Repr()) && b.value.Table().columns.Shared == {}
    ensures b.Some? ==> b.value.Table().kind == SCHEMAS[schema] && b.value.Table().tsOut == tsOut
    ensures schema == 0 ==> b.Some? && b.value.MboRef?
    ensures schema == 4 ==> b.Some? && b.value.TradesRef?
  {
    if schema == SCHEMA_MBO {
      var m := new MboBuilder(tsOut);
      return Some(MboRef(m));
    } else if schema == SCHEMA_TRADES {
      var t := new TradesBuilder(tsOut);
      return Some(TradesRef(t));
    }
    b := None;
  }

  function ClassifyAll(k: Kind, tsOut: bool, records: seq<seq<byte>>): (out: seq<Records.Record<Row>>)
    requires forall i :: 0 <= i < |records| ==> |records[i]| >= 16
    ensures |out| == |records|
  {
    seq(|records|, i requires 0 <= i < |records| => Classify(k, tsOut, records[i]))
  }

  /** Every batch reads as its rows, and its buffers are among `objects`. */
  ghost predicate AllStand(batches: seq<Batch>, rows: seq<seq<Row>>, objects: set<object>)
    reads objects
  {
    |batches| == |rows| && forall k :: 0 <= k < |batches| ==> batches[k].Stands(rows[k], objects)
  }

  /** `done` full batches and `open` rows are what the records so far gave. */
  ghost predicate Built(done: seq<seq<Row>>, open: seq<Row>, skipped: nat, past: seq<Records.Record<Row>>, n: nat) {
    && Concat(done) + open == Records.RowsOf(past)
    && skipped == Records.SkippedOf(past)
    && Records.NoShort(past)
    && |open| < n
    && (forall k :: 0 <= k < |done| ==> |done[k]| == n)
  }

  lemma BuiltNext(done: seq<seq<Row>>, open: seq<Row>, skipped: nat, all: seq<Records.Record<Row>>, i: nat, n: nat)
    requires i < |all| && Built(done, open, skipped, all[..i], n)
    ensures |open| < n
    ensures all[i].Other? ==> Built(done, open, skipped + 1, all[..i + 1], n)
    ensures all[i].Row? && |open| + 1 < n ==> Built(done, open + [all[i].row], skipped, all[..i + 1], n)
    ensures all[i].Row? && |open| + 1 == n ==> Built(done + [open + [all[i].row]], [], skipped, all[..i + 1], n)
  {
    Records.TakeNext(all, i);
    if all[i].Row? {
      var full := open + [all[i].row];
      ConcatPush(done, full);
      assert Concat(done) + full == (Concat(done) + open) + [all[i].row];
      assert Concat(done + [full]) + [] == Concat(done) + full;
    }
  }

  lemma BuiltAll(done: seq<seq<Row>>, open: seq<Row>, skipped: nat, all: seq<Records.Record<Row>>, n: nat)
    requires n > 0 && Built(done, open, skipped, all, n)
    ensures Partition(Records.RowsOf(all), n) == if open == [] then done else done + [open]
  {
    if open == [] {
      assert Concat(done) + [] == Concat(done);
      CutIsPartition(done, n);
    } else {
      ConcatPush(done, open);
      CutIsPartition(done + [open], n);
    }
  }

  /** append() and, when the batch is full, flush(). */
  method AppendAndFlush(b: BatchBuilder, record: seq<byte>, batchRows: nat)
    returns (r: Appended, full: Option<Batch>, ghost objects: set<object>)
    requires b.Valid() && |record| >= 16 && b.Table().rows < b.Table().capacity == batchRows
    modifies b.Table().Repr()
    ensures b.Valid() && b.Table().capacity == batchRows
    ensures fresh(b.Table().Repr() - old(b.Table().Repr())) && objects !! b.Table().Repr()
    ensures match Classify(b.Table().kind, b.Table().tsOut, record)
            case Other => r == Skipped && full.None? && b.Table().taken == old(b.Table().taken)
            case Short => r == Threw && full.None?
            case Row(row) =>
              && r == Taken
              && var rows := old(b.Table().taken) + [row];
                 if |rows| == batchRows then
                   full.Some? && full.value.Stands(rows, objects) && b.Table().taken == []
                 else full.None? && b.Table().taken == rows
  {
    hide Batch.Stands;
    full, objects := None, {};
    r := b.Append(record);
    if r == Taken && b.Table().rows >= batchRows {
      var batch;
      batch, objects := b.Table().Finish();
      b.Table().Reserve(batchRows);
      full := Some(batch);
    }
  }

  method AppendNext(b: BatchBuilder, record: seq<byte>, batchRows: nat, before: seq<Batch>, skippedBefore: nat,
                    ghost done: seq<seq<Row>>, ghost owned: set<object>, ghost all: seq<Records.Record<Row>>, ghost i: nat)
    returns (batches: seq<Batch>, skipped: nat, ok: bool, ghost now: seq<seq<Row>>, ghost objects: set<object>)
    requires b.Valid() && b.Table().capacity == batchRows && |record| >= 16
    requires i < |all| && all[i] == Classify(b.Table().kind, b.Table().tsOut, record)
    requires AllStand(before, done, owned) && owned !! b.Table().Repr()
    requires Built(done, b.Table().taken, skippedBefore, all[..i], batchRows)
    modifies b.Table().Repr()
    ensures b.Valid() && b.Table().capacity == batchRows && fresh(b.Table().Repr() - old(b.Table().Repr()))
    ensures ok <==> !all[i].Short?
    ensures AllStand(batches, now, objects) && objects !! b.Table().Repr()
    ensures ok ==> Built(now, b.Table().taken, skipped, all[..i + 1], batchRows)
  {
    hide Batch.ReadsAs, Built;
    BuiltNext(done, b.Table().taken, skippedBefore, all, i, batchRows);
    ghost var rows := b.Table().taken;
    var r, full, more := AppendAndFlush(b, record, batchRows);
    batches, skipped, ok, now, objects := before, skippedBefore, r != Threw, done, owned + more;
    if r == Skipped {
      skipped := skipped + 1;
    } else if full.Some? {
      batches, now := before + [full.value], done + [rows + [all[i].row]];
    }
  }

  method AppendAll(b: BatchBuilder, records: seq<seq<byte>>, batchRows: nat)
    returns (batches: seq<Batch>, skipped: nat, complete: bool, ghost now: seq<seq<Row>>, ghost objects: set<object>)
    requires b.Valid() && b.Table().taken == [] && b.Table().capacity == batchRows > 0
    requires forall i :: 0 <= i < |records| ==> |records[i]| >= 16
    modifies b.Table().Repr()
    ensures b.Valid() && b.Table().capacity == batchRows && fresh(b.Table().Repr() - old(b.Table().Repr()))
    ensures AllStand(batches, now, objects) && objects !! b.Table().Repr()
    ensures var all := ClassifyAll(b.Table().kind, b.Table().tsOut, records);
            if complete then Built(now, b.Table().taken, skipped, all, batchRows) else !Records.NoShort(all)
  {
    hide Batch.Stands;
    ghost var all := ClassifyAll(b.Table().kind, b.Table().tsOut, records);
    batches, skipped, complete, now, objects := [], 0, true, [], {};
    for i := 0 to |records|
      invariant b.Valid() && b.Table().capacity == batchRows && complete
      invariant fresh(b.Table().Repr() - old(b.Table().Repr()))
      invariant AllStand(batches, now, objects) && objects !! b.Table().Repr()
      invariant Built(now, b.Table().taken, skipped, all[..i], batchRows)
    {
      batches, skipped, complete, now, objects :=
        AppendNext(b, records[i], batchRows, batches, skipped, now, objects, all, i);
      if !complete {
        return;
      }
    }
    assert all[..|records|] == all;
  }

  /** append() on every record and the flush of close(), on one thread. When the
      last batch is built, every one still reads as its rows, and they are the
      partition of the matching rows; every append finds room in the
      reservation. A short record stops it. */
  method BuildBatches(b: BatchBuilder, records: seq<seq<byte>>, batchRows: nat)
    returns (batches: seq<Batch>, skipped: nat, complete: bool, ghost objects: set<object>)
    requires b.Valid() && b.Table().capacity == 0 && batchRows > 0
    requires forall i :: 0 <= i < |records| ==> |records[i]| >= 16
    modifies b.Table().Repr()
    ensures var all := ClassifyAll(b.Table().kind, b.Table().tsOut, records);
            && (complete <==> Records.NoShort(all))
            && (complete ==> AllStand(batches, Partition(Records.RowsOf(all), batchRows), objects) && skipped == Records.SkippedOf(all))
  {
    b.Table().Reserve(batchRows);
    ghost var now;
    batches, skipped, complete, now, objects := AppendAll(b, records, batchRows);
    if complete {
      ghost var all := ClassifyAll(b.Table().kind, b.Table().tsOut, records);
      BuiltAll(now, b.Table().taken, skipped, all, batchRows);
      if b.Table().rows > 0 {
        ghost var open := b.Table().taken;
        var batch, more := b.Table().Finish();
        batches, now, objects := batches + [batch], now + [open], objects + more;
      }
    }
  }
}
