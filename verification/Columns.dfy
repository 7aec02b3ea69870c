/** The column builders: values written straight into reserved buffers, with
    validity bitmaps and offsets as the Arrow columnar format lays them out. */
module Columns {
  import opened Bytes
  import opened Wrappers

  // ---- Validity bitmaps, least-significant bit first ----

  function Mask(k: nat): bv8
    requires k < 8
  {
    if k == 0 then 1 else if k == 1 then 2 else if k == 2 then 4 else if k == 3 then 8 else
    if k == 4 then 16 else if k == 5 then 32 else if k == 6 then 64 else 128
  }

  predicate BitSet(b: bv8, k: nat)
    requires k < 8
  {
    b & Mask(k) != 0
  }

  function BytesForBits(n: nat): (bytes: nat)
    ensures 8 * (bytes - 1) < n <= 8 * bytes || n == bytes == 0
  {
    (n + 7) / 8
  }

  /** Binary digit `k` of a number, counted from the least significant. */
  predicate Digit(n: nat, k: nat) {
    if k == 0 then n % 2 == 1 else Digit(n / 2, k - 1)
  }

  /** Slot `i` of a bitmap is valid, as a reader of the columnar format takes
      it: the slots of a byte are its binary digits, the first one the least. */
  predicate GetBit(bits: seq<bv8>, i: nat)
    requires i < 8 * |bits|
  {
    Digit(bits[i / 8] as int, i % 8)
  }

  lemma Halve(b: bv8)
    ensures (b >> 1) as int == (b as int) / 2
  {
  }

  lemma LowBit(b: bv8)
    ensures BitSet(b, 0) <==> (b as int) % 2 == 1
  {
  }

  lemma HalveBit(b: bv8, k: nat)
    requires 0 < k < 8
    ensures BitSet(b, k) <==> BitSet(b >> 1, k - 1)
  {
  }

  /** The mask selects the binary digit. */
  lemma {:induction false} MaskIsDigit(b: bv8, k: nat)
    requires k < 8
    ensures BitSet(b, k) <==> Digit(b as int, k)
  {
    if k == 0 {
      LowBit(b);
    } else {
      HalveBit(b, k);
      Halve(b);
      MaskIsDigit(b >> 1, k - 1);
    }
  }

  lemma ClearInByte(b: bv8, k: nat, j: nat)
    requires k < 8 && j < 8
    ensures BitSet(b & !Mask(k), j) <==> j != k && BitSet(b, j)
  {
  }

  lemma ClearInBits(bits: seq<bv8>, k: nat, j: nat)
    requires k < 8 * |bits| && j < 8 * |bits|
    ensures GetBit(bits[k / 8 := bits[k / 8] & !Mask(k % 8)], j) <==> j != k && GetBit(bits, j)
  {
    hide Digit, BitSet, Mask;
    if j / 8 == k / 8 {
      ClearInByte(bits[k / 8], k % 8, j % 8);
      MaskIsDigit(bits[k / 8], j % 8);
      MaskIsDigit(bits[k / 8] & !Mask(k % 8), j % 8);
      assert j == 8 * (j / 8) + j % 8 && k == 8 * (k / 8) + k % 8;
    }
  }

  lemma AllSet(k: nat)
    requires k < 8
    ensures Digit(0xFF as bv8 as int, k)
  {
    MaskIsDigit(0xFF, k);
  }

  /** The first `n` bits are set but for the nulls among the rows so far. */
  ghost predicate Agree(bits: seq<bv8>, rows: seq<Option<int>>, n: nat)
    requires n <= 8 * |bits|
  {
    n == 0 || (Agree(bits, rows, n - 1) && (GetBit(bits, n - 1) <==> !(n <= |rows| && rows[n - 1].None?)))
  }

  lemma {:induction false} AgreeAt(bits: seq<bv8>, rows: seq<Option<int>>, n: nat, i: nat)
    requires i < n <= 8 * |bits| && Agree(bits, rows, n)
    ensures GetBit(bits, i) <==> !(i < |rows| && rows[i].None?)
  {
    if i < n - 1 {
      AgreeAt(bits, rows, n - 1, i);
    }
  }

  lemma {:induction false} AllValidAgree(bits: seq<bv8>, n: nat)
    requires n <= 8 * |bits| && forall i :: 0 <= i < |bits| ==> bits[i] == 0xFF
    ensures Agree(bits, [], n)
  {
    if n > 0 {
      AllSet((n - 1) % 8);
      AllValidAgree(bits, n - 1);
    }
  }

  lemma {:induction false} ValidAgree(bits: seq<bv8>, rows: seq<Option<int>>, n: nat, v: int)
    requires n <= 8 * |bits| && Agree(bits, rows, n)
    ensures Agree(bits, rows + [Some(v)], n)
  {
    if n > 0 {
      ValidAgree(bits, rows, n - 1, v);
    }
  }

  function Cleared(bits: seq<bv8>, i: nat): seq<bv8>
    requires i < 8 * |bits|
  {
    bits[i / 8 := bits[i / 8] & !Mask(i % 8)]
  }

  lemma NullAgree(bits: seq<bv8>, rows: seq<Option<int>>, n: nat)
    requires n <= 8 * |bits| && |rows| < 8 * |bits| && Agree(bits, rows, n)
    ensures Agree(Cleared(bits, |rows|), rows + [None], n)
  {
    forall j | 0 <= j < 8 * |bits|
      ensures GetBit(Cleared(bits, |rows|), j) <==> j != |rows| && GetBit(bits, j)
    {
      ClearInBits(bits, |rows|, j);
    }
    NullAgreeWith(bits, Cleared(bits, |rows|), rows, n);
  }

  lemma {:induction false} NullAgreeWith(bits: seq<bv8>, bits': seq<bv8>, rows: seq<Option<int>>, n: nat)
    requires n <= 8 * |bits| && |bits'| == |bits| && Agree(bits, rows, n)
    requires forall j :: 0 <= j < 8 * |bits| ==> (GetBit(bits', j) <==> j != |rows| && GetBit(bits, j))
    ensures Agree(bits', rows + [None], n)
  {
    if n > 0 {
      NullAgreeWith(bits, bits', rows, n - 1);
    }
  }

  function NullCount(cells: seq<Option<int>>): nat {
    if cells == [] then 0 else
    NullCount(cells[..|cells| - 1]) + if cells[|cells| - 1].None? then 1 else 0
  }

  lemma NullCountPush(rows: seq<Option<int>>, c: Option<int>)
    ensures NullCount(rows + [c]) == NullCount(rows) + if c.None? then 1 else 0
  {
    assert (rows + [c])[..|rows|] == rows;
  }

  // ---- Finished arrays ----

  /** A fixed-width array; without a bitmap every slot is valid. */
  datatype NumArray = NumArray(values: array<int>, validity: array?<bv8>, length: nat)
  {
    ghost predicate Valid()
      reads values, validity
    {
      length <= values.Length && (validity != null ==> length <= 8 * validity.Length)
    }

    function At(i: nat): Option<int>
      requires Valid() && i < length
      reads values, validity
    {
      if validity == null || GetBit(validity[..], i) then Some(values[i]) else None
    }

    ghost function Footprint(): set<object> {
      {values as object} + if validity == null then {} else {validity as object}
    }
  }

  lemma {:induction false} NoNulls(cells: seq<Option<int>>, i: nat)
    requires NullCount(cells) == 0 && i < |cells|
    ensures cells[i].Some?
  {
    if i < |cells| - 1 {
      NoNulls(cells[..|cells| - 1], i);
    }
  }

  method ClearBit(bits: array<bv8>, i: nat)
    requires i < 8 * bits.Length
    modifies bits
    ensures bits[..] == old(bits[..])[i / 8 := old(bits[i / 8]) & !Mask(i % 8)]
  {
    bits[i / 8] := bits[i / 8] & !Mask(i % 8);
  }

  // ---- value_column ----

  /** The first `n` buffer slots hold the values of the rows that have one. */
  ghost predicate Holds(values: seq<int>, rows: seq<Option<int>>, n: nat)
    requires n <= |values| && n <= |rows|
  {
    n == 0 || (Holds(values, rows, n - 1) && (rows[n - 1].Some? ==> values[n - 1] == rows[n - 1].value))
  }

  lemma {:induction false} HoldsAt(values: seq<int>, rows: seq<Option<int>>, n: nat, i: nat)
    requires i < n <= |values| && n <= |rows| && Holds(values, rows, n) && rows[i].Some?
    ensures values[i] == rows[i].value
  {
    if i < n - 1 {
      HoldsAt(values, rows, n - 1, i);
    }
  }

  lemma {:induction false} HoldsStill(before: seq<int>, after: seq<int>, rows: seq<Option<int>>, more: seq<Option<int>>, n: nat)
    requires n <= |before| == |after| && n <= |rows| && n <= |more| && Holds(before, rows, n)
    requires after[..n] == before[..n] && more[..n] == rows[..n]
    ensures Holds(after, more, n)
  {
    if n > 0 {
      assert after[n - 1] == after[..n][n - 1] && before[n - 1] == before[..n][n - 1];
      assert more[n - 1] == more[..n][n - 1] && rows[n - 1] == rows[..n][n - 1];
      assert after[..n - 1] == after[..n][..n - 1] && before[..n - 1] == before[..n][..n - 1];
      assert more[..n - 1] == more[..n][..n - 1] && rows[..n - 1] == rows[..n][..n - 1];
      HoldsStill(before, after, rows, more, n - 1);
    }
  }

  function Somes(values: seq<int>): (cells: seq<Option<int>>)
    ensures |cells| == |values|
  {
    seq(|values|, i requires 0 <= i < |values| => Some(values[i]))
  }

  class ValueColumn {
    /** Whether the values are 64 bits wide, or 32. */
    const wide: bool
    var base: array?<int>
    ghost var rows: seq<int>
    ghost var Repr: set<object>

    ghost predicate Valid()
      reads this, Repr
      ensures Valid() ==> this in Repr
    {
      && this in Repr
      && (base == null ==> rows == [])
      && (base != null ==> base in Repr && |rows| <= base.Length && Holds(base[..], Somes(rows), |rows|))
    }

    /** The slots reserved, if any are. */
    ghost function Room(): Option<nat>
      reads this
    {
      if base == null then None else Some(base.Length)
    }

    constructor (wide: bool)
      ensures Valid() && Room().None? && fresh(Repr) && this.wide == wide
    {
      this.wide := wide;
      base, rows, Repr := null, [], {this};
    }

    method Reserve(n: nat)
      requires Valid() && Room().None?
      modifies Repr
      ensures Valid() && Room() == Some(n) && rows == [] && fresh(Repr - old(Repr))
    {
      base := new int[n];
      rows, Repr := [], {this, base};
    }

    method Set(i: nat, v: int64)
      requires wide || InInt32(v)
      requires Valid() && Room().Some? && i == |rows| < Room().value
      modifies Repr
      ensures Valid() && rows == old(rows) + [v] && Room() == old(Room()) && Repr == old(Repr)
    {
      ghost var before, cells := base[..], Somes(rows);
      base[i] := v;
      rows := rows + [v];
      HoldsStill(before, base[..], cells, Somes(rows), i);
    }

    method Finish(n: nat) returns (a: NumArray)
      requires Valid() && Room().Some? && n == |rows|
      modifies this
      ensures Valid() && Room().None? && rows == [] && Repr <= old(Repr)
      ensures a.Valid() && a.length == n && a.validity == null
      ensures forall i :: 0 <= i < n ==> a.At(i) == Some(old(rows)[i])
      ensures a.values in old(Repr) && a.values !in Repr
    {
      a := NumArray(base, null, n);
      forall i | 0 <= i < n
        ensures a.At(i) == Some(rows[i])
      {
        HoldsAt(base[..], Somes(rows), n, i);
      }
      base, rows, Repr := null, [], {this};
    }
  }

  // ---- nullable_column ----

  class NullableColumn {
    var base: array?<int>
    var bitmap: array<bv8>
    var nulls: nat
    ghost var rows: seq<Option<int>>
    ghost var Repr: set<object>

    ghost predicate Valid()
      reads this, Repr
      ensures Valid() ==> this in Repr
    {
      && this in Repr && bitmap in Repr
      && (base == null ==> rows == [])
      && (base != null ==>
            && base in Repr && base as object != bitmap
            && |rows| <= base.Length <= 8 * bitmap.Length
            && Agree(bitmap[..], rows, base.Length)
            && Holds(base[..], rows, |rows|)
            && nulls == NullCount(rows))
    }

    /** The slots reserved, if any are. */
    ghost function Room(): Option<nat>
      reads this
    {
      if base == null then None else Some(base.Length)
    }

    constructor ()
      ensures Valid() && Room().None? && fresh(Repr)
    {
      base, rows, nulls := null, [], 0;
      bitmap := new bv8[0];
      Repr := {this, bitmap};
    }

    /** No slot of the new bitmap reads as null yet. */
    method Reserve(n: nat)
      requires Valid() && Room().None?
      modifies Repr
      ensures Valid() && Room() == Some(n) && rows == [] && fresh(Repr - old(Repr))
    {
      base := new int[n];
      bitmap := new bv8[BytesForBits(n)](_ => 0xFF);
      nulls := 0;
      rows, Repr := [], {this, base, bitmap};
      AllValidAgree(bitmap[..], n);
    }

    /** Stores a value; only a null touches the bitmap. */
    method Set(i: nat, v: int64, valid: bool)
      requires Valid() && Room().Some? && i == |rows| < Room().value
      modifies Repr
      ensures Valid() && rows == old(rows) + [if valid then Some(v) else None]
      ensures Room() == old(Room()) && Repr == old(Repr)
    {
      hide Agree, NullCount, Mask;
      ghost var bits, values, cells, n := bitmap[..], base[..], rows, base.Length;
      base[i] := v;
      rows := rows + [if valid then Some(v) else None];
      HoldsStill(values, base[..], cells, rows, i);
      NullCountPush(cells, rows[i]);
      if valid {
        ValidAgree(bits, cells, n, v);
        assert bitmap[..] == bits;
      } else {
        assert bitmap[..] == bits;
        ClearBit(bitmap, i);
        nulls := nulls + 1;
        NullAgree(bits, cells, n);
      }
    }

    /** Hands the bitmap over only when there is a null; either way the array
        reads as the options set. */
    method Finish(n: nat) returns (a: NumArray)
      requires Valid() && Room().Some? && n == |rows|
      modifies this
      ensures Valid() && Room().None? && rows == [] && Repr <= old(Repr)
      ensures a.Valid() && a.length == n && (a.validity == null <==> old(NullCount(rows)) == 0)
      ensures forall i :: 0 <= i < n ==> a.At(i) == old(rows)[i]
      ensures a.validity != null ==>
                forall i :: 0 <= i < n ==> (Digit(a.validity[i / 8] as int, i % 8) <==> old(rows)[i].Some?)
      ensures a.values in old(Repr) && a.values !in Repr && (a.validity != null ==> fresh(a.validity))
    {
      if nulls == 0 {
        a := NumArray(base, null, n);
        forall i | 0 <= i < n
          ensures rows[i].Some?
        {
          NoNulls(rows, i);
        }
      } else {
        var bits := new bv8[bitmap.Length](i requires 0 <= i < bitmap.Length reads this, bitmap => bitmap[i]);
        assert bits[..] == bitmap[..];
        a := NumArray(base, bits, n);
        forall i | 0 <= i < n
          ensures GetBit(bits[..], i) <==> rows[i].Some?
        {
          AgreeAt(bits[..], rows, base.Length, i);
        }
      }
      forall i | 0 <= i < n && rows[i].Some?
        ensures base[i] == rows[i].value
      {
        HoldsAt(base[..], rows, n, i);
      }
      base, rows, Repr := null, [], {this, bitmap};
    }
  }

  // ---- char_column ----

  const INT32_LIMIT: nat := 0x8000_0000

  /** The cast of a 64-bit count to a 32-bit offset. */
  function ToInt32(i: nat): int {
    var low := i % 0x1_0000_0000;
    if low < INT32_LIMIT then low else low - 0x1_0000_0000
  }

  lemma SmallOffset(i: nat)
    requires i < INT32_LIMIT
    ensures ToInt32(i) == i
  {
  }

  /** The first count that does not fit comes out negative. */
  lemma LargeOffset()
    ensures ToInt32(INT32_LIMIT) < 0
  {
  }

  /** A variable-size array: slot `i` is the bytes between two offsets. */
  datatype Utf8Array = Utf8Array(offsets: array<int>, values: array<byte>, length: nat)
  {
    ghost predicate Valid() {
      length < offsets.Length
    }

    /** None when the offsets select no bytes of the values. */
    function At(i: nat): Option<seq<byte>>
      requires Valid() && i < length
      reads offsets, values
    {
      var start, end := offsets[i], offsets[i + 1];
      if 0 <= start <= end <= values.Length then Some(values[start..end]) else None
    }

    ghost function Footprint(): set<object> {
      {offsets as object, values}
    }
  }

  class CharColumn {
    var offsets: array?<int>
    var capacity: nat
    var values: array?<byte>
    ghost var rows: seq<byte>
    ghost var Repr: set<object>

    /** The offsets are shared with finished arrays: they are read here, and not
        written once they are built. */
    ghost function Shared(): set<object>
      reads this
    {
      if offsets == null then {} else {offsets}
    }

    ghost predicate Valid()
      reads this, Repr, offsets
      ensures Valid() ==> this in Repr
    {
      && this in Repr && offsets !in Repr
      && (offsets == null ==> capacity == 0)
      && (offsets != null ==> offsets.Length == capacity + 1 && forall i :: 0 <= i <= capacity ==> offsets[i] == ToInt32(i))
      && (values == null ==> rows == [])
      && (values != null ==>
            && values in Repr && offsets != null
            && |rows| <= values.Length <= capacity && rows == values[..|rows|])
    }

    ghost function Room(): Option<nat>
      reads this
    {
      if values == null then None else Some(values.Length)
    }

    constructor ()
      ensures Valid() && Room().None? && Shared() == {} && fresh(Repr)
    {
      offsets, capacity, values, rows, Repr := null, 0, null, [], {this};
    }

    /** The offsets are built anew only to grow; batches that share the old ones
        keep them as they are. */
    method Reserve(n: nat)
      requires Valid() && Room().None? && n > 0
      modifies Repr
      ensures Valid() && Room() == Some(n) && rows == [] && fresh(Repr - old(Repr))
      ensures if old(capacity) < n then capacity == n && fresh(offsets)
              else capacity == old(capacity) && offsets == old(offsets)
      ensures fresh(Shared() - old(Shared()))
    {
      if capacity < n {
        var o := new int[n + 1];
        for i := 0 to n + 1
          invariant forall j :: 0 <= j < i ==> o[j] == ToInt32(j)
        {
          o[i] := ToInt32(i);
        }
        offsets := o;
        capacity := n;
      }
      values := new byte[n];
      rows, Repr := [], {this, values};
    }

    method Set(i: nat, c: byte)
      requires Valid() && Room().Some? && i == |rows| < Room().value
      modifies Repr
      ensures Valid() && rows == old(rows) + [c] && Room() == old(Room()) && Repr == old(Repr)
      ensures offsets == old(offsets) && capacity == old(capacity)
    {
      values[i] := c;
      rows := rows + [c];
    }

    method Finish(n: nat) returns (a: Utf8Array)
      requires Valid() && Room().Some? && n == |rows|
      modifies this
      ensures Valid() && Room().None? && rows == [] && Repr <= old(Repr) && offsets == old(offsets) && capacity == old(capacity)
      ensures a.Valid() && a.length == n && a.offsets == offsets && a.values in old(Repr) && a.values !in Repr
      ensures forall i :: 0 <= i < n && i < INT32_LIMIT - 1 ==> a.At(i) == Some([old(rows)[i]])
      ensures n >= INT32_LIMIT ==> a.At(INT32_LIMIT - 1) == None
    {
      hide ToInt32;
      a := Utf8Array(offsets, values, n);
      forall i | 0 <= i < n && i + 1 < INT32_LIMIT
        ensures a.At(i) == Some([rows[i]])
      {
        SmallOffset(i);
        SmallOffset(i + 1);
        assert a.values[i..i + 1] == [a.values[i]];
      }
      SmallOffset(INT32_LIMIT - 1);
      LargeOffset();
      values, rows, Repr := null, [], {this};
    }
  }

  // ---- Batches stay as they were handed over ----

  /** Any number of batches through one nullable column: when all are built,
      every one still reads as it was set, nulls and all. */
  method NullableBatches(c: NullableColumn, batches: seq<seq<Option<int64>>>, sentinel: int64)
    returns (arrays: seq<NumArray>)
    requires c.Valid() && c.Room().None?
    modifies c.Repr
    ensures c.Valid() && c.Room().None? && |arrays| == |batches|
    ensures forall k :: 0 <= k < |batches| ==> arrays[k].Valid() && arrays[k].length == |batches[k]|
    ensures forall k, i :: 0 <= k < |batches| && 0 <= i < |batches[k]| ==> arrays[k].At(i) == batches[k][i]
  {
    arrays := [];
    for k := 0 to |batches|
      invariant c.Valid() && c.Room().None? && |arrays| == k && fresh(c.Repr - old(c.Repr))
      invariant forall j :: 0 <= j < k ==> arrays[j].Valid() && arrays[j].length == |batches[j]|
      invariant forall j :: 0 <= j < k ==> arrays[j].Footprint() !! c.Repr
      invariant forall j, i :: 0 <= j < k && 0 <= i < |batches[j]| ==> arrays[j].At(i) == batches[j][i]
    {
      var a := NullableBatch(c, batches[k], sentinel);
      arrays := arrays + [a];
    }
  }

  method NullableBatch(c: NullableColumn, cells: seq<Option<int64>>, sentinel: int64) returns (a: NumArray)
    requires c.Valid() && c.Room().None?
    modifies c.Repr
    ensures c.Valid() && c.Room().None? && fresh(c.Repr - old(c.Repr)) && a.Footprint() !! c.Repr
    ensures a.Valid() && a.length == |cells|
    ensures forall i :: 0 <= i < |cells| ==> a.At(i) == cells[i]
  {
    c.Reserve(|cells|);
    for i := 0 to |cells|
      invariant c.Valid() && c.Room() == Some(|cells|) && fresh(c.Repr - old(c.Repr)) && c.rows == cells[..i]
    {
      c.Set(i, if cells[i].Some? then cells[i].value else sentinel, cells[i].Some?);
      assert cells[..i + 1] == cells[..i] + [cells[i]];
    }
    assert cells[..|cells|] == cells;
    a := c.Finish(|cells|);
  }

  method CharBatch(c: CharColumn, bytes: seq<byte>) returns (a: Utf8Array)
    requires c.Valid() && c.Room().None? && 0 < |bytes|
    modifies c.Repr
    ensures c.Valid() && c.Room().None? && fresh(c.Repr - old(c.Repr)) && a.Footprint() !! c.Repr
    ensures if old(c.capacity) < |bytes| then c.capacity == |bytes| else c.capacity == old(c.capacity) && c.offsets == old(c.offsets)
    ensures a.Valid() && a.length == |bytes| && a.offsets == c.offsets
    ensures |bytes| < INT32_LIMIT ==> forall i :: 0 <= i < |bytes| ==> a.At(i) == Some([bytes[i]])
  {
    c.Reserve(|bytes|);
    for i := 0 to |bytes|
      invariant c.Valid() && c.Room() == Some(|bytes|) && fresh(c.Repr - old(c.Repr)) && c.rows == bytes[..i]
      invariant if old(c.capacity) < |bytes| then c.capacity == |bytes|
                else c.capacity == old(c.capacity) && c.offsets == old(c.offsets)
    {
      c.Set(i, bytes[i]);
      assert bytes[..i + 1] == bytes[..i] + [bytes[i]];
    }
    assert bytes[..|bytes|] == bytes;
    a := c.Finish(|bytes|);
  }

  /** Batches share one offsets buffer until a larger batch needs another; no
      batch changes when it is written or replaced. */
  method CharBatches(c: CharColumn, batches: seq<seq<byte>>) returns (arrays: seq<Utf8Array>)
    requires c.Valid() && c.Room().None?
    requires forall k :: 0 <= k < |batches| ==> 0 < |batches[k]| < INT32_LIMIT
    modifies c.Repr
    ensures c.Valid() && c.Room().None? && |arrays| == |batches|
    ensures forall k :: 0 <= k < |batches| ==> arrays[k].Valid() && arrays[k].length == |batches[k]|
    ensures forall k, i :: 0 <= k < |batches| && 0 <= i < |batches[k]| ==> arrays[k].At(i) == Some([batches[k][i]])
    ensures forall k :: 0 <= k < |batches| - 1 && |batches[k + 1]| <= |batches[k]| ==> arrays[k + 1].offsets == arrays[k].offsets
  {
    arrays := [];
    for k := 0 to |batches|
      invariant c.Valid() && c.Room().None? && |arrays| == k && fresh(c.Repr - old(c.Repr))
      invariant forall j :: 0 <= j < k ==> arrays[j].Valid() && arrays[j].length == |batches[j]|
      invariant forall j :: 0 <= j < k ==> arrays[j].Footprint() !! c.Repr
      invariant forall j, i :: 0 <= j < k && 0 <= i < |batches[j]| ==> arrays[j].At(i) == Some([batches[j][i]])
      invariant 0 < k ==> arrays[k - 1].offsets == c.offsets && |batches[k - 1]| <= c.capacity
      invariant forall j :: 0 <= j < k - 1 && |batches[j + 1]| <= |batches[j]| ==> arrays[j + 1].offsets == arrays[j].offsets
    {
      var a := CharBatch(c, batches[k]);
      arrays := arrays + [a];
    }
  }
}
