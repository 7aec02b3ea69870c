/** Columns of any kind, and the columns of a schema as one list in which every
    column has buffers of its own. */
module ColumnLists {
  import opened Wrappers
  import opened Bytes
  import opened Columns

  /** A slot read back; None is a null. */
  type Cell = Option<int>

  /** What is stored in a slot: a value, and whether it counts. */
  datatype Raw = Raw(value: int, valid: bool)
  {
    function Cell(): Cell {
      if valid then Some(value) else None
    }
  }

  /** The kinds of column: nullable ones are 64 bits wide, and a text is one
      byte. */
  datatype ColumnKind = NullableKind | Int32Kind | Int64Kind | TextKind
  {
    /** The value fits the column's width. */
    predicate Holds(value: int) {
      match this
      case Int32Kind => InInt32(value)
      case TextKind => 0 <= value < 256
      case _ => InInt64(value)
    }

    /** The bits a slot takes: the value, and whether it counts. */
    function Bits(): nat {
      match this
      case NullableKind => 64 + 1
      case Int32Kind => 32
      case Int64Kind => 64
      case TextKind => 8
    }

    predicate Takes(raw: Raw) {
      Holds(raw.value) && (NullableKind? || raw.valid)
    }
  }

  // ---- A finished column ----

  datatype Array = Numbers(numbers: NumArray) | Text(text: Utf8Array)
  {
    ghost function Footprint(): set<object> {
      if Numbers? then numbers.Footprint() else text.Footprint()
    }

    function Length(): nat {
      if Numbers? then numbers.length else text.length
    }

    ghost predicate Valid()
      reads Footprint()
    {
      if Numbers? then numbers.Valid() else text.Valid()
    }

    /** A slot, or None where the offsets select other than one byte. */
    function At(i: nat): Option<Cell>
      requires Valid() && i < Length()
      reads Footprint()
    {
      if Numbers? then Some(numbers.At(i)) else
      var s := text.At(i);
      if s.Some? && |s.value| == 1 then Some(Some(s.value[0] as int)) else None
    }

    /** The slots before the first that cannot be read. */
    function Readable(): (n: nat)
      ensures n <= Length()
    {
      if Text? && text.length >= INT32_LIMIT then INT32_LIMIT - 1 else Length()
    }

    ghost predicate ReadsUpTo(cells: seq<Cell>, n: nat)
      requires Valid() && n <= Length() && n <= |cells|
      reads Footprint()
    {
      n == 0 || (ReadsUpTo(cells, n - 1) && At(n - 1) == Some(cells[n - 1]))
    }

    /** The array reads as these cells, as far as it can be read at all. */
    ghost predicate Reads(cells: seq<Cell>)
      reads Footprint()
    {
      && Valid() && Length() == |cells| && ReadsUpTo(cells, Readable())
      && (Readable() < Length() ==> At(Readable()) == None)
    }

    lemma {:induction false} ReadsAt(cells: seq<Cell>, n: nat, i: nat)
      requires Valid() && i < n <= Length() && n <= |cells| && ReadsUpTo(cells, n)
      ensures At(i) == Some(cells[i])
    {
      if i < n - 1 {
        ReadsAt(cells, n - 1, i);
      }
    }

    lemma {:induction false} ReadsAll(cells: seq<Cell>, n: nat)
      requires Valid() && n <= Length() && n <= |cells| && forall i :: 0 <= i < n ==> At(i) == Some(cells[i])
      ensures ReadsUpTo(cells, n)
    {
      if n > 0 {
        ReadsAll(cells, n - 1);
      }
    }
  }

  // ---- A column being filled ----

  function Texts(bytes: seq<byte>): (cells: seq<Cell>)
    ensures |cells| == |bytes|
  {
    seq(|bytes|, i requires 0 <= i < |bytes| => Some(bytes[i] as int))
  }

  datatype Column = Nullable(nullable: NullableColumn) | Value(value: ValueColumn) | Chars(chars: CharColumn)
  {
    function Kind(): ColumnKind {
      match this
      case Nullable(_) => NullableKind
      case Value(c) => if c.wide then Int64Kind else Int32Kind
      case Chars(_) => TextKind
    }

    ghost function Object(): object {
      match this
      case Nullable(c) => c
      case Value(c) => c
      case Chars(c) => c
    }

    /** What the column writes, and what it only reads. */
    ghost function Repr(): set<object>
      reads Object()
    {
      match this
      case Nullable(c) => c.Repr
      case Value(c) => c.Repr
      case Chars(c) => c.Repr
    }

    ghost function Shared(): set<object>
      reads Object()
    {
      match this
      case Chars(c) => c.Shared()
      case _ => {}
    }

    ghost predicate Valid()
      reads Object(), Repr(), Shared()
      ensures Valid() ==> Object() in Repr() && Shared() !! Repr()
    {
      match this
      case Nullable(c) => c.Valid()
      case Value(c) => c.Valid()
      case Chars(c) => c.Valid()
    }

    ghost function Room(): Option<nat>
      reads Object()
    {
      match this
      case Nullable(c) => c.Room()
      case Value(c) => c.Room()
      case Chars(c) => c.Room()
    }

    ghost function Cells(): seq<Cell>
      reads Object()
    {
      match this
      case Nullable(c) => c.rows
      case Value(c) => Somes(c.rows)
      case Chars(c) => Texts(c.rows)
    }

    method Reserve(n: nat)
      requires Valid() && Room().None? && n > 0
      modifies Repr()
      ensures Valid() && Room() == Some(n) && Cells() == []
      ensures fresh(Repr() - old(Repr())) && fresh(Shared() - old(Shared()))
    {
      match this
      case Nullable(c) => c.Reserve(n);
      case Value(c) => c.Reserve(n);
      case Chars(c) => c.Reserve(n);
    }

    method Set(i: nat, raw: Raw)
      requires Valid() && Room().Some? && i == |Cells()| < Room().value && Kind().Takes(raw)
      modifies Repr()
      ensures Valid() && Repr() == old(Repr()) && Shared() == old(Shared()) && Room() == old(Room())
      ensures Cells() == old(Cells()) + [raw.Cell()]
    {
      match this
      case Nullable(c) => c.Set(i, raw.value, raw.valid);
      case Value(c) => c.Set(i, raw.value);
      case Chars(c) => c.Set(i, raw.value as byte);
    }

    /** The array shares nothing with `apart`, which the column does not touch. */
    method Finish(n: nat, ghost apart: set<object>) returns (a: Array)
      requires Valid() && Room().Some? && n == |Cells()| && apart !! Repr() && apart !! Shared()
      modifies Repr()
      ensures Valid() && Room().None? && Cells() == [] && Repr() <= old(Repr()) && Shared() == old(Shared())
      ensures a.Reads(old(Cells()))
      ensures a.Footprint() !! Repr() && a.Footprint() !! apart && (a.Text? <==> Kind().TextKind?)
    {
      ghost var cells := Cells();
      match this {
        case Nullable(c) =>
          var numbers := c.Finish(n);
          a := Numbers(numbers);
        case Value(c) =>
          var numbers := c.Finish(n);
          a := Numbers(numbers);
        case Chars(c) =>
          var text := c.Finish(n);
          a := Text(text);
      }
      a.ReadsAll(cells, a.Readable());
    }
  }

  method NewColumn(kind: ColumnKind) returns (c: Column)
    ensures c.Kind() == kind && c.Valid() && c.Room().None? && c.Cells() == [] && c.Shared() == {} && fresh(c.Repr())
  {
    match kind
    case NullableKind =>
      var column := new NullableColumn();
      c := Nullable(column);
    case Int32Kind =>
      var column := new ValueColumn(false);
      c := Value(column);
    case Int64Kind =>
      var column := new ValueColumn(true);
      c := Value(column);
    case TextKind =>
      var column := new CharColumn();
      c := Chars(column);
  }

  // ---- The columns of a schema ----

  /** No two columns write the same buffer. */
  ghost predicate Apart(reprs: seq<set<object>>) {
    forall j, k :: 0 <= j < k < |reprs| ==> reprs[j] !! reprs[k]
  }

  class ColumnList {
    const columns: seq<Column>
    ghost var reprs: seq<set<object>>
    ghost var Repr: set<object>
    ghost var Shared: set<object>
    ghost var room: Option<nat>
    ghost var count: nat

    /** Column `k` is sound and belongs to the list. */
    ghost predicate Has(k: nat)
      requires k < |columns| == |reprs|
      reads this, Repr, Shared
    {
      && columns[k].Object() in reprs[k] && reprs[k] <= Repr && this !in reprs[k]
      && columns[k].Repr() == reprs[k] && columns[k].Shared() <= Shared && columns[k].Valid()
    }

    ghost predicate Sound()
      reads this, Repr, Shared
      ensures Sound() ==> this in Repr
    {
      && this in Repr && Shared !! Repr && |columns| == |reprs| && Apart(reprs)
      && forall k :: 0 <= k < |columns| ==> Has(k)
    }

    ghost predicate Valid()
      reads this, Repr, Shared
      ensures Valid() ==> this in Repr
    {
      && Sound()
      && forall k :: 0 <= k < |columns| ==> Has(k) && columns[k].Room() == room && |columns[k].Cells()| == count
    }

    /** The cells of the columns, column by column. */
    ghost function Table(): (table: seq<seq<Cell>>)
      requires Valid()
      reads this, Repr, Shared
      ensures |table| == |columns| && forall k :: 0 <= k < |table| ==> |table[k]| == count
    {
      seq(|columns|, k requires 0 <= k < |columns| && Valid() && Has(k) reads this, Repr, Shared => columns[k].Cells())
    }

    constructor (kinds: seq<ColumnKind>)
      ensures Valid() && |columns| == |kinds| && forall k :: 0 <= k < |kinds| ==> columns[k].Kind() == kinds[k]
      ensures room.None? && count == 0 && fresh(Repr) && Shared == {}
    {
      var cs: seq<Column> := [];
      ghost var rs: seq<set<object>> := [];
      ghost var all: set<object> := {};
      for k := 0 to |kinds|
        invariant |cs| == |rs| == k && Apart(rs) && fresh(all)
        invariant forall j :: 0 <= j < k ==>
                    && cs[j].Kind() == kinds[j] && cs[j].Valid() && cs[j].Room().None? && cs[j].Cells() == []
                    && cs[j].Shared() == {} && cs[j].Repr() == rs[j] && cs[j].Object() in rs[j] && rs[j] <= all
      {
        var c := NewColumn(kinds[k]);
        cs, rs, all := cs + [c], rs + [c.Repr()], all + c.Repr();
      }
      columns := cs;
      new;
      reprs, Repr, Shared, room, count := rs, {this} + all, {}, None, 0;
      forall k | 0 <= k < |columns|
        ensures Has(k) && columns[k].Room() == room && |columns[k].Cells()| == count
      {
      }
    }

    method ReserveOne(k: nat, n: nat)
      requires Sound() && k < |columns| && n > 0 && columns[k].Room().None?
      modifies this, reprs[k]
      ensures Sound() && room == old(room) && count == old(count)
      ensures columns[k].Room() == Some(n) && columns[k].Cells() == []
      ensures fresh(Repr - old(Repr)) && fresh(Shared - old(Shared))
      ensures forall j :: 0 <= j < |columns| && j != k ==>
                columns[j].Cells() == old(columns[j].Cells()) && columns[j].Room() == old(columns[j].Room())
    {
      hide Column.Valid, Column.Cells, Column.Room;
      assert Has(k);
      columns[k].Reserve(n);
      reprs := reprs[k := columns[k].Repr()];
      Repr := Repr + columns[k].Repr();
      Shared := Shared + columns[k].Shared();
      forall j | 0 <= j < |columns|
        ensures Has(j) && (j != k ==> columns[j].Cells() == old(columns[j].Cells()) && columns[j].Room() == old(columns[j].Room()))
      {
        assert old(Has(j));
        if j != k {
          assert old(reprs[j]) !! old(reprs[k]);
          assert columns[j].Object() !in old(reprs[k]);
          assert columns[j].Repr() == reprs[j];
          assert columns[j].Shared() == old(columns[j].Shared());
          assert columns[j].Valid();
        }
      }
    }

    method SetOne(k: nat, i: nat, raw: Raw)
      requires Sound() && k < |columns| && columns[k].Kind().Takes(raw)
      requires columns[k].Room().Some? && i == |columns[k].Cells()| < columns[k].Room().value
      modifies reprs[k]
      ensures Sound() && columns[k].Cells() == old(columns[k].Cells()) + [raw.Cell()]
      ensures columns[k].Room() == old(columns[k].Room())
      ensures forall j :: 0 <= j < |columns| && j != k ==>
                columns[j].Cells() == old(columns[j].Cells()) && columns[j].Room() == old(columns[j].Room())
    {
      hide Column.Valid, Column.Cells, Column.Room;
      assert Has(k);
      columns[k].Set(i, raw);
      forall j | 0 <= j < |columns|
        ensures Has(j) && (j != k ==> columns[j].Cells() == old(columns[j].Cells()) && columns[j].Room() == old(columns[j].Room()))
      {
        assert old(Has(j));
        if j != k {
          assert reprs[j] !! reprs[k];
          assert columns[j].Object() !in reprs[k];
          assert columns[j].Repr() == reprs[j];
          assert columns[j].Shared() == old(columns[j].Shared());
          assert columns[j].Valid();
        }
      }
    }

    method FinishOne(k: nat, n: nat, ghost apart: set<object>) returns (a: Array)
      requires Sound() && k < |columns| && columns[k].Room().Some? && n == |columns[k].Cells()|
      requires apart !! Repr && apart !! Shared
      modifies this, reprs[k]
      ensures Sound() && room == old(room) && count == old(count)
      ensures columns[k].Room().None? && columns[k].Cells() == []
      ensures Repr <= old(Repr) && Shared == old(Shared)
      ensures a.Reads(old(columns[k].Cells())) && (a.Text? <==> columns[k].Kind().TextKind?)
      ensures a.Footprint() !! Repr && a.Footprint() !! apart
      ensures forall j :: 0 <= j < |columns| && j != k ==>
                columns[j].Cells() == old(columns[j].Cells()) && columns[j].Room() == old(columns[j].Room())
    {
      hide Column.Valid, Column.Cells, Column.Room;
      assert Has(k);
      a := columns[k].Finish(n, apart + (Repr - reprs[k]));
      reprs := reprs[k := columns[k].Repr()];
      Repr := Repr - a.Footprint();
      forall j | 0 <= j < |columns|
        ensures Has(j) && (j != k ==> columns[j].Cells() == old(columns[j].Cells()) && columns[j].Room() == old(columns[j].Room()))
      {
        assert old(Has(j));
        if j != k {
          assert old(reprs[j]) !! old(reprs[k]);
          assert columns[j].Object() !in old(reprs[k]);
          assert columns[j].Repr() == reprs[j];
          assert columns[j].Shared() == old(columns[j].Shared());
          assert columns[j].Valid();
        }
      }
    }

    /** Notes what the columns have come to. */
    ghost method Recount(newRoom: Option<nat>, newCount: nat)
      requires Sound()
      requires forall k :: 0 <= k < |columns| ==> columns[k].Room() == newRoom && |columns[k].Cells()| == newCount
      modifies this
      ensures Valid() && room == newRoom && count == newCount && Repr == old(Repr) && Shared == old(Shared)
      ensures forall k :: 0 <= k < |columns| ==> columns[k].Cells() == old(columns[k].Cells())
    {
      hide Column.Valid, Column.Cells, Column.Room;
      room, count := newRoom, newCount;
      forall k | 0 <= k < |columns|
        ensures Has(k) && columns[k].Room() == room && columns[k].Cells() == old(columns[k].Cells())
      {
        assert old(Has(k));
        assert this !in columns[k].Repr() && this !in columns[k].Shared() && this != columns[k].Object();
        assert columns[k].Valid();
      }
    }

    /** Takes buffers for `n` rows in every column. */
    method Reserve(n: nat)
      requires Valid() && room.None? && n > 0
      modifies Repr
      ensures Valid() && room == Some(n) && count == 0
      ensures fresh(Repr - old(Repr)) && fresh(Shared - old(Shared))
    {
      hide Column.Valid, Column.Cells, Column.Room;
      for k := 0 to |columns|
        invariant Sound() && room.None? && fresh(Repr - old(Repr)) && fresh(Shared - old(Shared))
        invariant forall j :: 0 <= j < k ==> columns[j].Room() == Some(n) && columns[j].Cells() == []
        invariant forall j :: k <= j < |columns| ==> columns[j].Room().None?
      {
        assert Has(k);
        ReserveOne(k, n);
      }
      Recount(Some(n), 0);
    }

    /** Stores one value in every column. */
    method Set(i: nat, raws: seq<Raw>)
      requires Valid() && room.Some? && i == count < room.value
      requires |raws| == |columns| && forall k :: 0 <= k < |columns| ==> columns[k].Kind().Takes(raws[k])
      modifies Repr
      ensures Valid() && Repr == old(Repr) && Shared == old(Shared) && room == old(room) && count == old(count) + 1
      ensures forall k :: 0 <= k < |columns| ==> Table()[k] == old(Table()[k]) + [raws[k].Cell()]
    {
      hide Column.Valid, Column.Cells, Column.Room;
      ghost var table := Table();
      for k := 0 to |columns|
        invariant Sound() && |table| == |columns|
        invariant Repr == old(Repr) && Shared == old(Shared) && room == old(room) && count == old(count)
        invariant forall j :: 0 <= j < |columns| ==> columns[j].Room() == room
        invariant forall j :: 0 <= j < k ==> columns[j].Cells() == table[j] + [raws[j].Cell()]
        invariant forall j :: k <= j < |columns| ==> columns[j].Cells() == table[j]
      {
        assert Has(k);
        SetOne(k, i, raws[k]);
      }
      Recount(room, count + 1);
    }

    /** Hands the columns over as arrays that read as the cells stored. */
    method Finish(n: nat, ghost apart: set<object>) returns (arrays: seq<Array>)
      requires Valid() && room.Some? && n == count && apart !! Repr && apart !! Shared
      modifies Repr
      ensures Valid() && room.None? && count == 0 && Repr <= old(Repr) && Shared == old(Shared)
      ensures |arrays| == |columns|
      ensures forall k :: 0 <= k < |arrays| ==> arrays[k].Reads(old(Table()[k]))
      ensures forall k :: 0 <= k < |arrays| ==> (arrays[k].Text? <==> columns[k].Kind().TextKind?)
      ensures forall k :: 0 <= k < |arrays| ==> arrays[k].Footprint() !! Repr && arrays[k].Footprint() !! apart
    {
      hide Column.Valid, Column.Cells, Column.Room, Array.Reads;
      ghost var table := Table();
      arrays := [];
      for k := 0 to |columns|
        invariant Sound() && |table| == |columns| && |arrays| == k && Repr <= old(Repr) && Shared == old(Shared)
        invariant forall j :: 0 <= j < k ==> columns[j].Room().None? && columns[j].Cells() == []
        invariant forall j :: k <= j < |columns| ==> columns[j].Room().Some? && columns[j].Cells() == table[j] && |table[j]| == n
        invariant forall j :: 0 <= j < k ==> arrays[j].Reads(table[j]) && (arrays[j].Text? <==> columns[j].Kind().TextKind?)
        invariant forall j :: 0 <= j < k ==> arrays[j].Footprint() !! Repr && arrays[j].Footprint() !! apart
      {
        assert Has(k);
        var a := FinishOne(k, n, apart);
        arrays := arrays + [a];
      }
      Recount(None, 0);
    }
  }
}
