/** The bounds-checked cursor over the metadata bytes, and the header read
    through it. */
module HeaderReader {
  import opened Bytes
  import opened Wrappers
  import opened Dbn
  import opened Header

  class Cursor {
    const data: seq<byte>
    var pos: nat

    ghost predicate Valid()
      reads this
    {
      pos <= |data|
    }

    /** The bytes not read yet; reads never go past them. */
    ghost function Rest(): seq<byte>
      reads this
      requires Valid()
    {
      data[pos..]
    }

    constructor (data: seq<byte>)
      ensures Valid() && Rest() == data
    {
      this.data, pos := data, 0;
    }

    method Bytes(n: nat) returns (r: Result<seq<byte>, HeaderError>)
      requires Valid()
      modifies this
      ensures Valid()
      ensures match Take(old(Rest()), n)
              case Failure(e) => r == Failure(e)
              case Success((raw, rest)) => r == Success(raw) && Rest() == rest
    {
      if pos + n > |data| {
        return Failure(EndsEarly);
      }
      assert data[pos..][..n] == data[pos..pos + n] && data[pos..][n..] == data[pos + n..];
      r := Success(data[pos..pos + n]);
      pos := pos + n;
    }

    method Read(n: nat) returns (r: Result<nat, HeaderError>)
      requires Valid()
      modifies this
      ensures Valid()
      ensures match TakeLE(old(Rest()), n)
              case Failure(e) => r == Failure(e)
              case Success((v, rest)) => r == Success(v) && Rest() == rest
    {
      var raw :- Bytes(n);
      r := Success(FromLE(raw));
    }

    method ReadByte() returns (r: Result<byte, HeaderError>)
      requires Valid()
      modifies this
      ensures Valid()
      ensures match TakeByte(old(Rest()))
              case Failure(e) => r == Failure(e)
              case Success((v, rest)) => r == Success(v) && Rest() == rest
    {
      var raw :- Bytes(1);
      r := Success(raw[0]);
    }

    /** A fixed-width field; the text is what precedes its first NUL. */
    method ReadText(width: nat) returns (r: Result<Text, HeaderError>)
      requires Valid()
      modifies this
      ensures Valid()
      ensures match Take(old(Rest()), width)
              case Failure(e) => r == Failure(e)
              case Success((raw, rest)) => r == Success(CStr(raw)) && Rest() == rest
    {
      var raw :- Bytes(width);
      r := Success(CStr(raw));
    }
  }

  /** A parse of the rest of a list, put behind the part already read. */
  ghost function Behind<T>(done: seq<T>, p: Parse<seq<T>>): Parse<seq<T>> {
    if p.Failure? then p else Success((done + p.value.0, p.value.1))
  }

  lemma BehindNothing<T>(p: Parse<seq<T>>)
    ensures Behind([], p) == p
  {
    if p.Success? {
      assert [] + p.value.0 == p.value.0;
    }
  }

  lemma BehindMore<T>(done: seq<T>, x: T, p: Parse<seq<T>>)
    ensures Behind(done, Behind([x], p)) == Behind(done + [x], p)
  {
    if p.Success? {
      assert done + ([x] + p.value.0) == (done + [x]) + p.value.0;
    }
  }

  method ReadSymbols(c: Cursor, width: nat) returns (r: Result<seq<Text>, HeaderError>)
    requires c.Valid()
    modifies c
    ensures c.Valid()
    ensures match TakeTextList(old(c.Rest()), width)
            case Failure(e) => r == Failure(e)
            case Success((raws, rest)) => r == Success(CStrs(raws)) && c.Rest() == rest
  {
    var count :- c.Read(4);
    ghost var start := c.Rest();
    var texts: seq<Text> := [];
    ghost var raws: seq<seq<byte>> := [];
    BehindNothing(TakeTexts(start, width, count));
    for i := 0 to count
      invariant c.Valid()
      invariant texts == CStrs(raws)
      invariant TakeTexts(start, width, count) == Behind(raws, TakeTexts(c.Rest(), width, count - i))
    {
      ghost var b := c.Rest();
      var text :- c.ReadText(width);
      texts := texts + [text];
      ghost var raw := Take(b, width).value.0;
      BehindMore(raws, raw, TakeTexts(c.Rest(), width, count - i - 1));
      raws := raws + [raw];
    }
    assert raws + [] == raws;
    r := Success(texts);
  }

  function MeanInterval(iv: RawInterval): MappingInterval {
    MappingInterval(iv.startDate, iv.endDate, CStr(iv.symbol))
  }

  method ReadInterval(c: Cursor, width: nat) returns (r: Result<MappingInterval, HeaderError>)
    requires c.Valid()
    modifies c
    ensures c.Valid()
    ensures match TakeInterval(old(c.Rest()), width)
            case Failure(e) => r == Failure(e)
            case Success((raw, rest)) => r == Success(MeanInterval(raw)) && c.Rest() == rest
  {
    var startDate :- c.Read(4);
    var endDate :- c.Read(4);
    var symbol :- c.ReadText(width);
    r := Success(MappingInterval(startDate, endDate, symbol));
  }

  method ReadIntervals(c: Cursor, width: nat, count: nat) returns (r: Result<seq<MappingInterval>, HeaderError>)
    requires c.Valid()
    modifies c
    ensures c.Valid()
    ensures match TakeIntervals(old(c.Rest()), width, count)
            case Failure(e) => r == Failure(e)
            case Success((raws, rest)) => r == Success(MeanIntervals(raws)) && c.Rest() == rest
  {
    hide TakeInterval, CStr;
    ghost var start := c.Rest();
    var ivs: seq<MappingInterval> := [];
    ghost var raws: seq<RawInterval> := [];
    BehindNothing(TakeIntervals(start, width, count));
    for j := 0 to count
      invariant c.Valid()
      invariant ivs == MeanIntervals(raws)
      invariant TakeIntervals(start, width, count) == Behind(raws, TakeIntervals(c.Rest(), width, count - j))
    {
      ghost var b := c.Rest();
      var iv :- ReadInterval(c, width);
      ghost var raw := TakeInterval(b, width).value.0;
      ivs := ivs + [iv];
      BehindMore(raws, raw, TakeIntervals(c.Rest(), width, count - j - 1));
      raws := raws + [raw];
    }
    assert raws + [] == raws;
    r := Success(ivs);
  }

  method ReadMapping(c: Cursor, width: nat) returns (r: Result<SymbolMapping, HeaderError>)
    requires c.Valid()
    modifies c
    ensures c.Valid()
    ensures match TakeMapping(old(c.Rest()), width)
            case Failure(e) => r == Failure(e)
            case Success((raw, rest)) =>
              r == Success(SymbolMapping(CStr(raw.rawSymbol), MeanIntervals(raw.intervals))) && c.Rest() == rest
  {
    var rawSymbol :- c.ReadText(width);
    var intervalCount :- c.Read(4);
    var ivs :- ReadIntervals(c, width, intervalCount);
    r := Success(SymbolMapping(rawSymbol, ivs));
  }

  method ReadMappings(c: Cursor, width: nat) returns (r: Result<seq<SymbolMapping>, HeaderError>)
    requires c.Valid()
    modifies c
    ensures c.Valid()
    ensures match TakeLE(old(c.Rest()), 4)
            case Failure(e) => r == Failure(e)
            case Success((count, b)) =>
              match TakeMappings(b, width, count)
              case Failure(e) => r == Failure(e)
              case Success((raws, rest)) => r == Success(MeanMappings(raws)) && c.Rest() == rest
  {
    hide TakeMapping, MeanIntervals, CStr;
    var count :- c.Read(4);
    ghost var start := c.Rest();
    var ms: seq<SymbolMapping> := [];
    ghost var raws: seq<RawMapping> := [];
    BehindNothing(TakeMappings(start, width, count));
    for i := 0 to count
      invariant c.Valid()
      invariant ms == MeanMappings(raws)
      invariant TakeMappings(start, width, count) == Behind(raws, TakeMappings(c.Rest(), width, count - i))
    {
      ghost var b := c.Rest();
      var m :- ReadMapping(c, width);
      ms := ms + [m];
      ghost var raw := TakeMapping(b, width).value.0;
      BehindMore(raws, raw, TakeMappings(c.Rest(), width, count - i - 1));
      raws := raws + [raw];
    }
    assert raws + [] == raws;
    r := Success(ms);
  }

  method ReadQuery(c: Cursor) returns (r: Result<(Text, nat, nat, nat, nat), HeaderError>)
    requires c.Valid()
    modifies c
    ensures c.Valid()
    ensures match TakeQuery(old(c.Rest()))
            case Failure(e) => r == Failure(e)
            case Success((q, rest)) =>
              r == Success((CStr(q.dataset), q.schema, q.start, q.end, q.limit)) && c.Rest() == rest
  {
    var dataset :- c.ReadText(DATASET_CSTR_LEN);
    var schema :- c.Read(2);
    var start :- c.Read(8);
    var end :- c.Read(8);
    var limit :- c.Read(8);
    r := Success((dataset, schema, start, end, limit));
  }

  method ReadFlags(c: Cursor, version: nat) returns (r: Result<(byte, byte, byte), HeaderError>)
    requires c.Valid()
    modifies c
    ensures c.Valid()
    ensures match TakeFlags(version, old(c.Rest()))
            case Failure(e) => r == Failure(e)
            case Success((f, rest)) => r == Success((f.stypeIn, f.stypeOut, f.tsOut)) && c.Rest() == rest
  {
    if version == 1 {
      var _ :- c.Bytes(8);  // record_count, dropped in version 2
    }
    var stypeIn :- c.ReadByte();
    var stypeOut :- c.ReadByte();
    var tsOut :- c.ReadByte();
    r := Success((stypeIn, stypeOut, tsOut));
  }

  method ReadLayout(c: Cursor, version: nat) returns (r: Result<nat, HeaderError>)
    requires c.Valid()
    modifies c
    ensures c.Valid()
    ensures match TakeLayout(version, old(c.Rest()))
            case Failure(e) => r == Failure(e)
            case Success((l, rest)) => r == Success(l.width) && c.Rest() == rest
  {
    var width := SYMBOL_CSTR_LEN_V1;
    if version == 1 {
      var _ :- c.Bytes(RESERVED_LEN_V1);
    } else {
      width :- c.Read(2);
      var _ :- c.Bytes(RESERVED_LEN);
    }
    if width == 0 {
      return Failure(ZeroSymbolWidth);
    }
    var definitionLen :- c.Read(4);
    if definitionLen != 0 {
      return Failure(SchemaDefinitions);
    }
    r := Success(width);
  }

  /** The metadata of a header of the given version in `data`, as the stored
      header at the front of `data` means it. */
  method ReadHeader(version: nat, data: seq<byte>) returns (r: Result<Metadata, HeaderError>)
    ensures match TakeStored(version, data)
            case Failure(e) => r == Failure(e)
            case Success((s, _)) => r == Success(Mean(s))
  {
    var c := new Cursor(data);
    var query :- ReadQuery(c);
    var (dataset, schema, start, end, limit) := query;
    var flags :- ReadFlags(c, version);
    var (stypeIn, stypeOut, tsOut) := flags;
    var width :- ReadLayout(c, version);
    var symbols :- ReadSymbols(c, width);
    var partial :- ReadSymbols(c, width);
    var notFound :- ReadSymbols(c, width);
    var mappings :- ReadMappings(c, width);
    r := Success(Metadata(
      version, dataset,
      if schema == NULL_SCHEMA then None else Some(schema),
      start,
      if end == UNDEF_TIMESTAMP || end == 0 then None else Some(end),
      if limit == 0 then None else Some(limit),
      if stypeIn == NULL_STYPE then None else Some(stypeIn),
      stypeOut, tsOut != 0, width, symbols, partial, notFound, mappings));
  }
}
