/** The metadata header: its bytes, the encoder, and the decoder as one parse. */
module Header {
  import opened Bytes
  import opened Wrappers
  import opened Dbn

  datatype HeaderError = EndsEarly | ZeroSymbolWidth | SchemaDefinitions

  type Parse<T> = Result<(T, seq<byte>), HeaderError>

  // The header as it is stored, field by field.

  datatype Query = Query(dataset: seq<byte>, schema: nat, start: nat, end: nat, limit: nat)

  /** `recordCount` is stored by version 1 only. */
  datatype Flags = Flags(recordCount: nat, stypeIn: byte, stypeOut: byte, tsOut: byte)

  /** `width` is stored from version 2 on; version 1 fixes it. */
  datatype Layout = Layout(width: nat, reserved: seq<byte>)

  datatype RawInterval = RawInterval(startDate: nat, endDate: nat, symbol: seq<byte>)

  datatype RawMapping = RawMapping(rawSymbol: seq<byte>, intervals: seq<RawInterval>)

  datatype Lists = Lists(symbols: seq<seq<byte>>, partial: seq<seq<byte>>, notFound: seq<seq<byte>>,
                         mappings: seq<RawMapping>)

  datatype Stored = Stored(version: nat, query: Query, flags: Flags, layout: Layout, lists: Lists)

  predicate WfTexts(texts: seq<seq<byte>>, width: nat) {
    |texts| < U32 && forall i :: 0 <= i < |texts| ==> |texts[i]| == width
  }

  predicate WfIntervals(ivs: seq<RawInterval>, width: nat) {
    |ivs| < U32 && forall i :: 0 <= i < |ivs| ==> WfInterval(ivs[i], width)
  }

  predicate WfInterval(iv: RawInterval, width: nat) {
    iv.startDate < U32 && iv.endDate < U32 && |iv.symbol| == width
  }

  predicate WfMappings(ms: seq<RawMapping>, width: nat) {
    |ms| < U32 && forall i :: 0 <= i < |ms| ==> WfMapping(ms[i], width)
  }

  predicate WfMapping(m: RawMapping, width: nat) {
    |m.rawSymbol| == width && WfIntervals(m.intervals, width)
  }

  predicate WfQuery(q: Query) {
    |q.dataset| == DATASET_CSTR_LEN && q.schema < 0x1_0000 && q.start < U64 && q.end < U64 && q.limit < U64
  }

  predicate WfFlags(version: nat, f: Flags) {
    if version == 1 then f.recordCount < U64 else f.recordCount == 0
  }

  predicate WfLayout(version: nat, l: Layout) {
    && |l.reserved| == (if version == 1 then RESERVED_LEN_V1 else RESERVED_LEN)
    && (if version == 1 then l.width == SYMBOL_CSTR_LEN_V1 else 0 < l.width < 0x1_0000)
  }

  predicate WfLists(l: Lists, width: nat) {
    WfTexts(l.symbols, width) && WfTexts(l.partial, width) && WfTexts(l.notFound, width) && WfMappings(l.mappings, width)
  }

  predicate Wf(s: Stored) {
    && WfQuery(s.query) && WfFlags(s.version, s.flags) && WfLayout(s.version, s.layout)
    && WfLists(s.lists, s.layout.width)
  }

  // ---- The encoder; each part is written in front of what follows it. ----

  function QueryOnto(q: Query, tail: seq<byte>): seq<byte> {
    q.dataset + (ToLE(q.schema, 2) + (ToLE(q.start, 8) + (ToLE(q.end, 8) + (ToLE(q.limit, 8) + tail))))
  }

  function FlagsOnto(version: nat, f: Flags, tail: seq<byte>): seq<byte> {
    var flags := [f.stypeIn] + ([f.stypeOut] + ([f.tsOut] + tail));
    if version == 1 then ToLE(f.recordCount, 8) + flags else flags
  }

  function LayoutOnto(version: nat, l: Layout, tail: seq<byte>): seq<byte> {
    var reserved := l.reserved + (ToLE(0, 4) + tail);
    if version == 1 then reserved else ToLE(l.width, 2) + reserved
  }

  function TextsOnto(texts: seq<seq<byte>>, tail: seq<byte>): seq<byte> {
    if texts == [] then tail else texts[0] + TextsOnto(texts[1..], tail)
  }

  function TextListOnto(texts: seq<seq<byte>>, tail: seq<byte>): seq<byte> {
    ToLE(|texts|, 4) + TextsOnto(texts, tail)
  }

  function IntervalsOnto(ivs: seq<RawInterval>, tail: seq<byte>): seq<byte> {
    if ivs == [] then tail else IntervalOnto(ivs[0], IntervalsOnto(ivs[1..], tail))
  }

  function IntervalOnto(iv: RawInterval, tail: seq<byte>): seq<byte> {
    ToLE(iv.startDate, 4) + (ToLE(iv.endDate, 4) + (iv.symbol + tail))
  }

  function MappingsOnto(ms: seq<RawMapping>, tail: seq<byte>): seq<byte> {
    if ms == [] then tail else
    MappingOnto(ms[0], MappingsOnto(ms[1..], tail))
  }

  function MappingOnto(m: RawMapping, tail: seq<byte>): seq<byte> {
    m.rawSymbol + (ToLE(|m.intervals|, 4) + IntervalsOnto(m.intervals, tail))
  }

  function ListsOnto(l: Lists, tail: seq<byte>): seq<byte> {
    TextListOnto(l.symbols, TextListOnto(l.partial, TextListOnto(l.notFound,
      ToLE(|l.mappings|, 4) + MappingsOnto(l.mappings, tail))))
  }

  function EncodeOnto(s: Stored, tail: seq<byte>): seq<byte> {
    QueryOnto(s.query, FlagsOnto(s.version, s.flags, LayoutOnto(s.version, s.layout, ListsOnto(s.lists, tail))))
  }

  // ---- The decoder's reads, in its order. ----

  function Take(b: seq<byte>, n: nat): Parse<seq<byte>> {
    if n > |b| then Failure(EndsEarly) else Success((b[..n], b[n..]))
  }

  function TakeLE(b: seq<byte>, n: nat): Parse<nat> {
    var (raw, rest) :- Take(b, n);
    Success((FromLE(raw), rest))
  }

  function TakeByte(b: seq<byte>): Parse<byte> {
    var (raw, rest) :- Take(b, 1);
    Success((raw[0], rest))
  }

  function TakeQuery(b0: seq<byte>): Parse<Query> {
    var (dataset, b1) :- Take(b0, DATASET_CSTR_LEN);
    var (schema, b2) :- TakeLE(b1, 2);
    var (start, b3) :- TakeLE(b2, 8);
    var (end, b4) :- TakeLE(b3, 8);
    var (limit, b5) :- TakeLE(b4, 8);
    Success((Query(dataset, schema, start, end, limit), b5))
  }

  function TakeFlags(version: nat, b0: seq<byte>): Parse<Flags> {
    var (recordCount, b1) :- if version == 1 then TakeLE(b0, 8) else Success((0, b0));
    var (stypeIn, b2) :- TakeByte(b1);
    var (stypeOut, b3) :- TakeByte(b2);
    var (tsOut, b4) :- TakeByte(b3);
    Success((Flags(recordCount, stypeIn, stypeOut, tsOut), b4))
  }

  function TakeLayout(version: nat, b0: seq<byte>): Parse<Layout> {
    var (width, b1) :- if version == 1 then Success((SYMBOL_CSTR_LEN_V1, b0)) else TakeLE(b0, 2);
    var (reserved, b2) :- Take(b1, if version == 1 then RESERVED_LEN_V1 else RESERVED_LEN);
    if width == 0 then Failure(ZeroSymbolWidth) else
    var (definitionLen, b3) :- TakeLE(b2, 4);
    if definitionLen != 0 then Failure(SchemaDefinitions) else
    Success((Layout(width, reserved), b3))
  }

  function TakeTexts(b: seq<byte>, width: nat, count: nat): Parse<seq<seq<byte>>>
    decreases count
  {
    if count == 0 then Success(([], b)) else
    var (text, b1) :- Take(b, width);
    var (texts, b2) :- TakeTexts(b1, width, count - 1);
    Success(([text] + texts, b2))
  }

  function TakeTextList(b: seq<byte>, width: nat): Parse<seq<seq<byte>>> {
    var (count, b1) :- TakeLE(b, 4);
    TakeTexts(b1, width, count)
  }

  function TakeInterval(b: seq<byte>, width: nat): Parse<RawInterval> {
    var (startDate, b1) :- TakeLE(b, 4);
    var (endDate, b2) :- TakeLE(b1, 4);
    var (symbol, b3) :- Take(b2, width);
    Success((RawInterval(startDate, endDate, symbol), b3))
  }

  function TakeIntervals(b: seq<byte>, width: nat, count: nat): Parse<seq<RawInterval>>
    decreases count
  {
    if count == 0 then Success(([], b)) else
    var (iv, b1) :- TakeInterval(b, width);
    var (ivs, b2) :- TakeIntervals(b1, width, count - 1);
    Success(([iv] + ivs, b2))
  }

  function TakeMapping(b: seq<byte>, width: nat): Parse<RawMapping> {
    var (rawSymbol, b1) :- Take(b, width);
    var (intervalCount, b2) :- TakeLE(b1, 4);
    var (ivs, b3) :- TakeIntervals(b2, width, intervalCount);
    Success((RawMapping(rawSymbol, ivs), b3))
  }

  function TakeMappings(b: seq<byte>, width: nat, count: nat): Parse<seq<RawMapping>>
    decreases count
  {
    if count == 0 then Success(([], b)) else
    var (m, b1) :- TakeMapping(b, width);
    var (ms, b2) :- TakeMappings(b1, width, count - 1);
    Success(([m] + ms, b2))
  }

  function TakeLists(b0: seq<byte>, width: nat): Parse<Lists> {
    var (symbols, b1) :- TakeTextList(b0, width);
    var (partial, b2) :- TakeTextList(b1, width);
    var (notFound, b3) :- TakeTextList(b2, width);
    var (count, b4) :- TakeLE(b3, 4);
    var (mappings, b5) :- TakeMappings(b4, width, count);
    Success((Lists(symbols, partial, notFound, mappings), b5))
  }

  function TakeStored(version: nat, b0: seq<byte>): Parse<Stored> {
    var (query, b1) :- TakeQuery(b0);
    var (flags, b2) :- TakeFlags(version, b1);
    var (layout, b3) :- TakeLayout(version, b2);
    var (lists, b4) :- TakeLists(b3, layout.width);
    Success((Stored(version, query, flags, layout, lists), b4))
  }

  // ---- What the stored fields mean. ----

  /** The text before the first NUL of a fixed-width field. */
  function CStr(raw: seq<byte>): (text: Text)
    ensures |text| <= |raw|
  {
    if raw == [] || raw[0] == 0 then [] else [raw[0]] + CStr(raw[1..])
  }

  function CStrs(raws: seq<seq<byte>>): (texts: seq<Text>)
    ensures |texts| == |raws|
  {
    seq(|raws|, i requires 0 <= i < |raws| => CStr(raws[i]))
  }

  function MeanIntervals(ivs: seq<RawInterval>): seq<MappingInterval> {
    seq(|ivs|, i requires 0 <= i < |ivs| => MappingInterval(ivs[i].startDate, ivs[i].endDate, CStr(ivs[i].symbol)))
  }

  function MeanMappings(ms: seq<RawMapping>): seq<SymbolMapping> {
    seq(|ms|, i requires 0 <= i < |ms| => SymbolMapping(CStr(ms[i].rawSymbol), MeanIntervals(ms[i].intervals)))
  }

  function Mean(s: Stored): Metadata {
    Metadata(s.version, CStr(s.query.dataset),
             if s.query.schema == NULL_SCHEMA then None else Some(s.query.schema),
             s.query.start,
             if s.query.end == UNDEF_TIMESTAMP || s.query.end == 0 then None else Some(s.query.end),
             if s.query.limit == 0 then None else Some(s.query.limit),
             if s.flags.stypeIn == NULL_STYPE then None else Some(s.flags.stypeIn),
             s.flags.stypeOut, s.flags.tsOut != 0, s.layout.width,
             CStrs(s.lists.symbols), CStrs(s.lists.partial), CStrs(s.lists.notFound),
             MeanMappings(s.lists.mappings))
  }
}
