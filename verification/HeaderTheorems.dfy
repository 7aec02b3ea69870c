/** The decoder accepts exactly the encoder's headers and inverts it. */
module HeaderTheorems {
  import opened Bytes
  import opened Wrappers
  import opened Dbn
  import opened Header

  lemma TakeFront(a: seq<byte>, rest: seq<byte>)
    ensures Take(a + rest, |a|) == Success((a, rest))
  {
  }

  lemma TakeLEFront(v: nat, n: nat, rest: seq<byte>)
    requires v < Pow256(n)
    ensures TakeLE(ToLE(v, n) + rest, n) == Success((v, rest))
  {
    FromToLE(v, n);
    TakeFront(ToLE(v, n), rest);
  }

  // ---- Decoding what was encoded ----

  lemma DecodeQuery(q: Query, t: seq<byte>)
    requires WfQuery(q)
    ensures TakeQuery(QueryOnto(q, t)) == Success((q, t))
  {
    Powers();
    var t5 := ToLE(q.limit, 8) + t;
    var t4 := ToLE(q.end, 8) + t5;
    var t3 := ToLE(q.start, 8) + t4;
    var t2 := ToLE(q.schema, 2) + t3;
    TakeFront(q.dataset, t2);
    TakeLEFront(q.schema, 2, t3);
    TakeLEFront(q.start, 8, t4);
    TakeLEFront(q.end, 8, t5);
    TakeLEFront(q.limit, 8, t);
  }

  lemma DecodeFlags(version: nat, f: Flags, t: seq<byte>)
    requires WfFlags(version, f)
    ensures TakeFlags(version, FlagsOnto(version, f, t)) == Success((f, t))
  {
    Powers();
    var t3 := [f.tsOut] + t;
    var t2 := [f.stypeOut] + t3;
    var t1 := [f.stypeIn] + t2;
    TakeFront([f.stypeIn], t2);
    TakeFront([f.stypeOut], t3);
    TakeFront([f.tsOut], t);
    if version == 1 {
      TakeLEFront(f.recordCount, 8, t1);
    }
  }

  lemma DecodeLayout(version: nat, l: Layout, t: seq<byte>)
    requires WfLayout(version, l)
    ensures TakeLayout(version, LayoutOnto(version, l, t)) == Success((l, t))
  {
    Powers();
    var t2 := ToLE(0, 4) + t;
    var t1 := l.reserved + t2;
    TakeFront(l.reserved, t2);
    TakeLEFront(0, 4, t);
    if version != 1 {
      TakeLEFront(l.width, 2, t1);
    }
  }

  lemma {:induction false} DecodeTexts(texts: seq<seq<byte>>, width: nat, t: seq<byte>)
    requires forall i :: 0 <= i < |texts| ==> |texts[i]| == width
    ensures TakeTexts(TextsOnto(texts, t), width, |texts|) == Success((texts, t))
  {
    if texts != [] {
      TakeFront(texts[0], TextsOnto(texts[1..], t));
      DecodeTexts(texts[1..], width, t);
      assert [texts[0]] + texts[1..] == texts;
    }
  }

  lemma DecodeTextList(texts: seq<seq<byte>>, width: nat, t: seq<byte>)
    requires WfTexts(texts, width)
    ensures TakeTextList(TextListOnto(texts, t), width) == Success((texts, t))
  {
    Powers();
    TakeLEFront(|texts|, 4, TextsOnto(texts, t));
    DecodeTexts(texts, width, t);
  }

  lemma {:induction false} DecodeIntervals(ivs: seq<RawInterval>, width: nat, t: seq<byte>)
    requires WfIntervals(ivs, width)
    ensures TakeIntervals(IntervalsOnto(ivs, t), width, |ivs|) == Success((ivs, t))
  {
    if ivs != [] {
      DecodeInterval(ivs[0], width, IntervalsOnto(ivs[1..], t));
      DecodeIntervals(ivs[1..], width, t);
      assert [ivs[0]] + ivs[1..] == ivs;
    }
  }

  lemma DecodeInterval(iv: RawInterval, width: nat, t: seq<byte>)
    requires WfInterval(iv, width)
    ensures TakeInterval(IntervalOnto(iv, t), width) == Success((iv, t))
  {
    Powers();
    var t2 := iv.symbol + t;
    TakeLEFront(iv.startDate, 4, ToLE(iv.endDate, 4) + t2);
    TakeLEFront(iv.endDate, 4, t2);
    TakeFront(iv.symbol, t);
  }

  lemma {:induction false} DecodeMappings(ms: seq<RawMapping>, width: nat, t: seq<byte>)
    requires WfMappings(ms, width)
    ensures TakeMappings(MappingsOnto(ms, t), width, |ms|) == Success((ms, t))
  {
    hide TakeMapping, MappingOnto;
    if ms != [] {
      DecodeMapping(ms[0], width, MappingsOnto(ms[1..], t));
      DecodeMappings(ms[1..], width, t);
      assert [ms[0]] + ms[1..] == ms;
    }
  }

  lemma DecodeMapping(m: RawMapping, width: nat, t: seq<byte>)
    requires WfMapping(m, width)
    ensures TakeMapping(MappingOnto(m, t), width) == Success((m, t))
  {
    Powers();
    var t2 := IntervalsOnto(m.intervals, t);
    TakeFront(m.rawSymbol, ToLE(|m.intervals|, 4) + t2);
    TakeLEFront(|m.intervals|, 4, t2);
    DecodeIntervals(m.intervals, width, t);
  }

  lemma DecodeLists(l: Lists, width: nat, t: seq<byte>)
    requires WfLists(l, width)
    ensures TakeLists(ListsOnto(l, t), width) == Success((l, t))
  {
    Powers();
    var t4 := MappingsOnto(l.mappings, t);
    var t3 := ToLE(|l.mappings|, 4) + t4;
    var t2 := TextListOnto(l.notFound, t3);
    DecodeTextList(l.symbols, width, TextListOnto(l.partial, t2));
    DecodeTextList(l.partial, width, t2);
    DecodeTextList(l.notFound, width, t3);
    TakeLEFront(|l.mappings|, 4, t4);
    DecodeMappings(l.mappings, width, t);
  }

  /** Decoding inverts encoding, whatever follows the header. */
  lemma DecodeInvertsEncode(s: Stored, t: seq<byte>)
    requires Wf(s)
    ensures TakeStored(s.version, EncodeOnto(s, t)) == Success((s, t))
  {
    var t3 := ListsOnto(s.lists, t);
    var t2 := LayoutOnto(s.version, s.layout, t3);
    var t1 := FlagsOnto(s.version, s.flags, t2);
    DecodeQuery(s.query, t1);
    DecodeFlags(s.version, s.flags, t2);
    DecodeLayout(s.version, s.layout, t3);
    DecodeLists(s.lists, s.layout.width, t);
  }

  // ---- Encoding what was decoded ----

  lemma TakeGives(b: seq<byte>, n: nat)
    requires Take(b, n).Success?
    ensures var (raw, rest) := Take(b, n).value; |raw| == n && b == raw + rest
  {
  }

  lemma TakeLEGives(b: seq<byte>, n: nat)
    requires TakeLE(b, n).Success?
    ensures var (v, rest) := TakeLE(b, n).value; v < Pow256(n) && b == ToLE(v, n) + rest
  {
    TakeGives(b, n);
    LEGives(Take(b, n).value.0);
  }

  lemma LEGives(raw: seq<byte>)
    ensures FromLE(raw) < Pow256(|raw|) && ToLE(FromLE(raw), |raw|) == raw
  {
    ToFromLE(raw);
  }

  lemma EncodeQuery(b: seq<byte>)
    requires TakeQuery(b).Success?
    ensures var (q, t) := TakeQuery(b).value; WfQuery(q) && b == QueryOnto(q, t)
  {
    Powers();
    var (dataset, b1) := Take(b, DATASET_CSTR_LEN).value;
    TakeLEGives(b1, 2);
    var b2 := TakeLE(b1, 2).value.1;
    TakeLEGives(b2, 8);
    var b3 := TakeLE(b2, 8).value.1;
    TakeLEGives(b3, 8);
    var b4 := TakeLE(b3, 8).value.1;
    TakeLEGives(b4, 8);
  }

  lemma EncodeFlags(version: nat, b: seq<byte>)
    requires TakeFlags(version, b).Success?
    ensures var (f, t) := TakeFlags(version, b).value; WfFlags(version, f) && b == FlagsOnto(version, f, t)
  {
    Powers();
    if version == 1 {
      TakeLEGives(b, 8);
    }
  }

  lemma EncodeLayout(version: nat, b: seq<byte>)
    requires TakeLayout(version, b).Success?
    ensures var (l, t) := TakeLayout(version, b).value; WfLayout(version, l) && b == LayoutOnto(version, l, t)
  {
    Powers();
    var n := if version == 1 then RESERVED_LEN_V1 else RESERVED_LEN;
    var b1 := b;
    if version != 1 {
      TakeLEGives(b, 2);
      b1 := TakeLE(b, 2).value.1;
    }
    TakeGives(b1, n);
    TakeLEGives(b1[n..], 4);
  }

  lemma {:induction false} EncodeTexts(b: seq<byte>, width: nat, count: nat)
    requires TakeTexts(b, width, count).Success?
    ensures var (texts, t) := TakeTexts(b, width, count).value;
            |texts| == count && (forall i :: 0 <= i < count ==> |texts[i]| == width) && b == TextsOnto(texts, t)
    decreases count
  {
    if count > 0 {
      EncodeTexts(b[width..], width, count - 1);
      var texts := TakeTexts(b, width, count).value.0;
      assert texts[1..] == TakeTexts(b[width..], width, count - 1).value.0;
    }
  }

  lemma EncodeTextList(b: seq<byte>, width: nat)
    requires TakeTextList(b, width).Success?
    ensures var (texts, t) := TakeTextList(b, width).value; WfTexts(texts, width) && b == TextListOnto(texts, t)
  {
    Powers();
    TakeLEGives(b, 4);
    var (count, b1) := TakeLE(b, 4).value;
    EncodeTexts(b1, width, count);
  }

  lemma {:induction false} EncodeIntervals(b: seq<byte>, width: nat, count: nat)
    requires TakeIntervals(b, width, count).Success? && count < U32
    ensures var (ivs, t) := TakeIntervals(b, width, count).value;
            |ivs| == count && WfIntervals(ivs, width) && b == IntervalsOnto(ivs, t)
    decreases count
  {
    if count > 0 {
      EncodeInterval(b, width);
      var b1 := TakeInterval(b, width).value.1;
      EncodeIntervals(b1, width, count - 1);
      var ivs := TakeIntervals(b, width, count).value.0;
      assert ivs[1..] == TakeIntervals(b1, width, count - 1).value.0;
    }
  }

  lemma EncodeInterval(b: seq<byte>, width: nat)
    requires TakeInterval(b, width).Success?
    ensures var (iv, t) := TakeInterval(b, width).value;
            WfInterval(iv, width) && b == IntervalOnto(iv, t)
  {
    Powers();
    TakeLEGives(b, 4);
    var b1 := TakeLE(b, 4).value.1;
    TakeLEGives(b1, 4);
    TakeGives(TakeLE(b1, 4).value.1, width);
  }

  lemma {:induction false} EncodeMappings(b: seq<byte>, width: nat, count: nat)
    requires TakeMappings(b, width, count).Success? && count < U32
    ensures var (ms, t) := TakeMappings(b, width, count).value;
            |ms| == count && WfMappings(ms, width) && b == MappingsOnto(ms, t)
    decreases count
  {
    if count > 0 {
      EncodeMapping(b, width);
      var b1 := TakeMapping(b, width).value.1;
      EncodeMappings(b1, width, count - 1);
      var ms := TakeMappings(b, width, count).value.0;
      assert ms[1..] == TakeMappings(b1, width, count - 1).value.0;
    }
  }

  lemma EncodeMapping(b: seq<byte>, width: nat)
    requires TakeMapping(b, width).Success?
    ensures var (m, t) := TakeMapping(b, width).value; WfMapping(m, width) && b == MappingOnto(m, t)
  {
    Powers();
    TakeGives(b, width);
    var b1 := b[width..];
    TakeLEGives(b1, 4);
    var (intervalCount, b2) := TakeLE(b1, 4).value;
    EncodeIntervals(b2, width, intervalCount);
  }

  lemma EncodeLists(b: seq<byte>, width: nat)
    requires TakeLists(b, width).Success?
    ensures var (l, t) := TakeLists(b, width).value; WfLists(l, width) && b == ListsOnto(l, t)
  {
    Powers();
    EncodeTextList(b, width);
    var b1 := TakeTextList(b, width).value.1;
    EncodeTextList(b1, width);
    var b2 := TakeTextList(b1, width).value.1;
    EncodeTextList(b2, width);
    var b3 := TakeTextList(b2, width).value.1;
    TakeLEGives(b3, 4);
    var (count, b4) := TakeLE(b3, 4).value;
    EncodeMappings(b4, width, count);
  }

  /** Whatever the decoder accepts is an encoded header and what follows it, so
      it accepts nothing else and no two headers look alike. */
  lemma EncodeInvertsDecode(version: nat, b: seq<byte>)
    requires TakeStored(version, b).Success?
    ensures var (s, t) := TakeStored(version, b).value;
            Wf(s) && s.version == version && b == EncodeOnto(s, t)
  {
    EncodeQuery(b);
    var b1 := TakeQuery(b).value.1;
    EncodeFlags(version, b1);
    var b2 := TakeFlags(version, b1).value.1;
    EncodeLayout(version, b2);
    var (layout, b3) := TakeLayout(version, b2).value;
    EncodeLists(b3, layout.width);
  }

  // ---- Metadata and the headers that say it ----

  predicate Fits(text: Text, width: nat) {
    |text| <= width && 0 !in text
  }

  predicate FitAll(texts: seq<Text>, width: nat) {
    |texts| < U32 && forall i :: 0 <= i < |texts| ==> Fits(texts[i], width)
  }

  predicate FitIntervals(ivs: seq<MappingInterval>, width: nat) {
    |ivs| < U32 && forall i :: 0 <= i < |ivs| ==>
      ivs[i].startDate < U32 && ivs[i].endDate < U32 && Fits(ivs[i].symbol, width)
  }

  predicate FitMappings(ms: seq<SymbolMapping>, width: nat) {
    |ms| < U32 && forall i :: 0 <= i < |ms| ==>
      Fits(ms[i].rawSymbol, width) && FitIntervals(ms[i].intervals, width)
  }

  /** The metadata a header can say: texts fit their fields, numbers their
      width, and an absent number is not also a present sentinel. */
  predicate Storable(md: Metadata) {
    var w := md.symbolCstrLen;
    && 1 <= md.version <= MAX_VERSION
    && Fits(md.dataset, DATASET_CSTR_LEN)
    && (md.schema.Some? ==> md.schema.value < NULL_SCHEMA)
    && md.start < U64
    && (md.end.Some? ==> 0 < md.end.value < UNDEF_TIMESTAMP)
    && (md.limit.Some? ==> 0 < md.limit.value < U64)
    && (md.stypeIn.Some? ==> md.stypeIn.value < NULL_STYPE)
    && md.stypeOut < 256
    && (if md.version == 1 then w == SYMBOL_CSTR_LEN_V1 else 0 < w < 0x1_0000)
    && FitAll(md.symbols, w) && FitAll(md.partial, w) && FitAll(md.notFound, w)
    && FitMappings(md.mappings, w)
  }

  function Pad(text: Text, width: nat): (raw: seq<byte>)
    requires |text| <= width
    ensures |raw| == width
  {
    text + Zeros(width - |text|)
  }

  lemma {:induction false} PadCStr(text: Text, width: nat)
    requires Fits(text, width)
    ensures CStr(Pad(text, width)) == text
  {
    if text != [] {
      PadCStr(text[1..], width - 1);
      assert Pad(text, width)[1..] == Pad(text[1..], width - 1);
    }
  }

  /** The text of a field is its longest prefix without a NUL. */
  lemma {:induction false} CStrIsPrefix(raw: seq<byte>)
    ensures var text := CStr(raw);
            text <= raw && 0 !in text && (|text| < |raw| ==> raw[|text|] == 0)
  {
    if raw != [] && raw[0] != 0 {
      CStrIsPrefix(raw[1..]);
      assert raw == [raw[0]] + raw[1..];
    }
  }

  function PadAll(texts: seq<Text>, width: nat): seq<seq<byte>>
    requires FitAll(texts, width)
  {
    seq(|texts|, i requires 0 <= i < |texts| => Pad(texts[i], width))
  }

  function StoreIntervals(ivs: seq<MappingInterval>, width: nat): seq<RawInterval>
    requires FitIntervals(ivs, width)
  {
    seq(|ivs|, i requires 0 <= i < |ivs| => RawInterval(ivs[i].startDate, ivs[i].endDate, Pad(ivs[i].symbol, width)))
  }

  function StoreMappings(ms: seq<SymbolMapping>, width: nat): seq<RawMapping>
    requires FitMappings(ms, width)
  {
    seq(|ms|, i requires 0 <= i < |ms| =>
      RawMapping(Pad(ms[i].rawSymbol, width), StoreIntervals(ms[i].intervals, width)))
  }

  /** One header that says `md`: texts padded with NULs, absent numbers as
      their sentinels, reserved bytes zero. */
  function Store(md: Metadata): Stored
    requires Storable(md)
  {
    var w := md.symbolCstrLen;
    Stored(md.version,
           Query(Pad(md.dataset, DATASET_CSTR_LEN),
                 if md.schema.None? then NULL_SCHEMA else md.schema.value,
                 md.start,
                 if md.end.None? then UNDEF_TIMESTAMP else md.end.value,
                 if md.limit.None? then 0 else md.limit.value),
           Flags(0, if md.stypeIn.None? then NULL_STYPE else md.stypeIn.value, md.stypeOut, if md.tsOut then 1 else 0),
           Layout(w, Zeros(if md.version == 1 then RESERVED_LEN_V1 else RESERVED_LEN)),
           Lists(PadAll(md.symbols, w), PadAll(md.partial, w), PadAll(md.notFound, w), StoreMappings(md.mappings, w)))
  }

  lemma PadAllMeans(texts: seq<Text>, width: nat)
    requires FitAll(texts, width)
    ensures WfTexts(PadAll(texts, width), width) && CStrs(PadAll(texts, width)) == texts
  {
    forall i | 0 <= i < |texts|
      ensures CStr(Pad(texts[i], width)) == texts[i]
    {
      PadCStr(texts[i], width);
    }
  }

  lemma StoreIntervalsMeans(ivs: seq<MappingInterval>, width: nat)
    requires FitIntervals(ivs, width)
    ensures WfIntervals(StoreIntervals(ivs, width), width) && MeanIntervals(StoreIntervals(ivs, width)) == ivs
  {
    forall i | 0 <= i < |ivs|
      ensures CStr(Pad(ivs[i].symbol, width)) == ivs[i].symbol
    {
      PadCStr(ivs[i].symbol, width);
    }
  }

  lemma StoreMappingsMeans(ms: seq<SymbolMapping>, width: nat)
    requires FitMappings(ms, width)
    ensures WfMappings(StoreMappings(ms, width), width) && MeanMappings(StoreMappings(ms, width)) == ms
  {
    var raw := StoreMappings(ms, width);
    forall i | 0 <= i < |ms|
      ensures |raw[i].rawSymbol| == width && WfIntervals(raw[i].intervals, width)
      ensures MeanMappings(raw)[i] == ms[i]
    {
      PadCStr(ms[i].rawSymbol, width);
      StoreIntervalsMeans(ms[i].intervals, width);
    }
  }

  lemma StoreLists(md: Metadata)
    requires Storable(md)
    ensures var l := Store(md).lists;
            && WfLists(l, md.symbolCstrLen)
            && CStrs(l.symbols) == md.symbols && CStrs(l.partial) == md.partial && CStrs(l.notFound) == md.notFound
            && MeanMappings(l.mappings) == md.mappings
  {
    var w := md.symbolCstrLen;
    PadAllMeans(md.symbols, w);
    PadAllMeans(md.partial, w);
    PadAllMeans(md.notFound, w);
    StoreMappingsMeans(md.mappings, w);
  }

  lemma StoreFixed(md: Metadata)
    requires Storable(md)
    ensures var s := Store(md);
            WfQuery(s.query) && WfFlags(s.version, s.flags) && WfLayout(s.version, s.layout)
    ensures CStr(Store(md).query.dataset) == md.dataset
  {
    PadCStr(md.dataset, DATASET_CSTR_LEN);
  }

  lemma StoreMeans(md: Metadata)
    requires Storable(md)
    ensures Wf(Store(md)) && Mean(Store(md)) == md
  {
    StoreFixed(md);
    StoreLists(md);
  }

  /** Every storable metadata survives the header: encode, then decode. */
  lemma MetadataRoundTrip(md: Metadata, t: seq<byte>)
    requires Storable(md)
    ensures TakeStored(md.version, EncodeOnto(Store(md), t)) == Success((Store(md), t))
    ensures Mean(Store(md)) == md
  {
    StoreMeans(md);
    DecodeInvertsEncode(Store(md), t);
  }

  lemma CStrsFit(raws: seq<seq<byte>>, width: nat)
    requires WfTexts(raws, width)
    ensures FitAll(CStrs(raws), width)
  {
    forall i | 0 <= i < |raws|
      ensures Fits(CStr(raws[i]), width)
    {
      CStrIsPrefix(raws[i]);
    }
  }

  lemma MappingsFit(ms: seq<RawMapping>, width: nat)
    requires WfMappings(ms, width)
    ensures FitMappings(MeanMappings(ms), width)
  {
    forall i | 0 <= i < |ms|
      ensures Fits(CStr(ms[i].rawSymbol), width) && FitIntervals(MeanIntervals(ms[i].intervals), width)
    {
      CStrIsPrefix(ms[i].rawSymbol);
      forall j | 0 <= j < |ms[i].intervals|
        ensures Fits(CStr(ms[i].intervals[j].symbol), width)
      {
        CStrIsPrefix(ms[i].intervals[j].symbol);
      }
    }
  }

  /** And only storable metadata is ever decoded. */
  lemma DecodedIsStorable(version: nat, b: seq<byte>)
    requires 1 <= version <= MAX_VERSION && TakeStored(version, b).Success?
    ensures Storable(Mean(TakeStored(version, b).value.0))
  {
    hide TakeStored, EncodeOnto, CStr;
    EncodeInvertsDecode(version, b);
    var (s, _) := TakeStored(version, b).value;
    CStrIsPrefix(s.query.dataset);
    CStrsFit(s.lists.symbols, s.layout.width);
    CStrsFit(s.lists.partial, s.layout.width);
    CStrsFit(s.lists.notFound, s.layout.width);
    MappingsFit(s.lists.mappings, s.layout.width);
  }

  // ---- Where the fields are ----

  function Absent(v: nat, absent: bool): Option<nat> {
    if absent then None else Some(v)
  }

  /** The query stands in the first 42 bytes. */
  ghost predicate QueryAt(b: seq<byte>, md: Metadata) {
    && |b| >= 42 && md.dataset == CStr(b[..16])
    && (var v := FromLE(b[16..18]); md.schema == Absent(v, v == 0xFFFF))
    && md.start == FromLE(b[18..26])
    && (var v := FromLE(b[26..34]); md.end == Absent(v, v == 0 || v == U64 - 1))
    && (var v := FromLE(b[34..42]); md.limit == Absent(v, v == 0))
  }

  /** The three flags follow it, in version 1 behind a record count; from version
      2 on the width of symbols comes next. */
  ghost predicate FlagsAt(b: seq<byte>, md: Metadata) {
    var at := if md.version == 1 then 50 else 42;
    && |b| >= 53
    && (var v: nat := b[at]; md.stypeIn == Absent(v, v == 0xFF))
    && md.stypeOut == b[at + 1] && md.tsOut == (b[at + 2] != 0)
    && md.symbolCstrLen == if md.version == 1 then 22 else FromLE(b[45..47])
  }

  /** Behind 100 bytes stand an empty schema definition and the symbols' count. */
  ghost predicate ListsAt(b: seq<byte>, md: Metadata) {
    |b| >= 108 && FromLE(b[100..104]) == 0 && |md.symbols| == FromLE(b[104..108])
  }

  lemma TakeAt(b: seq<byte>, b': seq<byte>, at: nat, n: nat)
    requires at <= |b| && b' == b[at..] && Take(b', n).Success?
    ensures at + n <= |b| && Take(b', n).value == (b[at..at + n], b[at + n..])
  {
    assert b'[..n] == b[at..at + n] && b'[n..] == b[at + n..];
  }

  lemma QueryIsAt(b: seq<byte>)
    requires TakeQuery(b).Success?
    ensures var (q, t) := TakeQuery(b).value;
            && |b| >= 42 && t == b[42..] && q.dataset == b[..16] && q.schema == FromLE(b[16..18])
            && q.start == FromLE(b[18..26]) && q.end == FromLE(b[26..34]) && q.limit == FromLE(b[34..42])
  {
    assert b[0..] == b && b[0..16] == b[..16];
    TakeAt(b, b, 0, 16);
    TakeAt(b, b[16..], 16, 2);
    TakeAt(b, b[18..], 18, 8);
    TakeAt(b, b[26..], 26, 8);
    TakeAt(b, b[34..], 34, 8);
  }

  lemma FlagsAreAt(version: nat, b: seq<byte>)
    requires |b| >= 42 && TakeFlags(version, b[42..]).Success?
    ensures var (f, t) := TakeFlags(version, b[42..]).value;
            var at := if version == 1 then 50 else 42;
            && |b| >= at + 3 && t == b[at + 3..] && f.stypeIn == b[at] && f.stypeOut == b[at + 1] && f.tsOut == b[at + 2]
  {
    var at := if version == 1 then 50 else 42;
    if version == 1 {
      TakeAt(b, b[42..], 42, 8);
    }
    TakeAt(b, b[at..], at, 1);
    TakeAt(b, b[at + 1..], at + 1, 1);
    TakeAt(b, b[at + 2..], at + 2, 1);
  }

  lemma LayoutIsAt(version: nat, b: seq<byte>)
    requires var at := if version == 1 then 53 else 45; |b| >= at && TakeLayout(version, b[at..]).Success?
    ensures var at := if version == 1 then 53 else 45;
            var (l, t) := TakeLayout(version, b[at..]).value;
            && |b| >= 104 && t == b[104..] && FromLE(b[100..104]) == 0
            && l.width == if version == 1 then 22 else FromLE(b[45..47])
  {
    if version == 1 {
      TakeAt(b, b[53..], 53, 47);
      assert Take(b[53..], RESERVED_LEN_V1).value.1 == b[100..];
    } else {
      TakeAt(b, b[45..], 45, 2);
      TakeAt(b, b[47..], 47, 53);
    }
    TakeAt(b, b[100..], 100, 4);
  }

  lemma {:induction false} TextsTaken(b: seq<byte>, width: nat, count: nat)
    requires TakeTexts(b, width, count).Success?
    ensures |TakeTexts(b, width, count).value.0| == count
  {
    if count > 0 {
      TextsTaken(Take(b, width).value.1, width, count - 1);
    }
  }

  lemma ListsAreAt(b: seq<byte>, width: nat)
    requires |b| >= 104 && TakeLists(b[104..], width).Success?
    ensures |b| >= 108 && |TakeLists(b[104..], width).value.0.symbols| == FromLE(b[104..108])
  {
    TakeAt(b, b[104..], 104, 4);
    TextsTaken(b[108..], width, FromLE(b[104..108]));
  }

  /** Where a header that decodes has the fixed fields of its metadata. */
  lemma FieldsAt(version: nat, b: seq<byte>)
    requires TakeStored(version, b).Success?
    ensures var md := Mean(TakeStored(version, b).value.0);
            md.version == version && QueryAt(b, md) && FlagsAt(b, md) && ListsAt(b, md)
  {
    hide CStr, TakeTexts, TakeMappings;
    QueryIsAt(b);
    FlagsAreAt(version, b);
    LayoutIsAt(version, b);
    var at := if version == 1 then 53 else 45;
    ListsAreAt(b, TakeLayout(version, b[at..]).value.0.width);
  }

  lemma {:induction false} TextsEndEarly(b: seq<byte>, width: nat, count: nat)
    ensures TakeTexts(b, width, count).Failure? ==> TakeTexts(b, width, count).error == EndsEarly
    decreases count
  {
    if count > 0 && Take(b, width).Success? {
      TextsEndEarly(Take(b, width).value.1, width, count - 1);
    }
  }

  lemma {:induction false} IntervalsEndEarly(b: seq<byte>, width: nat, count: nat)
    ensures TakeIntervals(b, width, count).Failure? ==> TakeIntervals(b, width, count).error == EndsEarly
    decreases count
  {
    if count > 0 && TakeInterval(b, width).Success? {
      IntervalsEndEarly(TakeInterval(b, width).value.1, width, count - 1);
    }
  }

  lemma {:induction false} MappingsEndEarly(b: seq<byte>, width: nat, count: nat)
    ensures TakeMappings(b, width, count).Failure? ==> TakeMappings(b, width, count).error == EndsEarly
    decreases count
  {
    if count > 0 {
      if Take(b, width).Success? && TakeLE(Take(b, width).value.1, 4).Success? {
        var (n, rest) := TakeLE(Take(b, width).value.1, 4).value;
        IntervalsEndEarly(rest, width, n);
      }
      if TakeMapping(b, width).Success? {
        MappingsEndEarly(TakeMapping(b, width).value.1, width, count - 1);
      }
    }
  }

  lemma TextListEndsEarly(b: seq<byte>, width: nat)
    ensures TakeTextList(b, width).Failure? ==> TakeTextList(b, width).error == EndsEarly
  {
    if TakeLE(b, 4).Success? {
      TextsEndEarly(TakeLE(b, 4).value.1, width, TakeLE(b, 4).value.0);
    }
  }

  lemma ListsEndEarly(b: seq<byte>, width: nat)
    ensures TakeLists(b, width).Failure? ==> TakeLists(b, width).error == EndsEarly
  {
    hide TakeTextList, TakeMappings;
    TextListEndsEarly(b, width);
    if TakeTextList(b, width).Success? {
      var b1 := TakeTextList(b, width).value.1;
      TextListEndsEarly(b1, width);
      if TakeTextList(b1, width).Success? {
        var b2 := TakeTextList(b1, width).value.1;
        TextListEndsEarly(b2, width);
        if TakeTextList(b2, width).Success? && TakeLE(TakeTextList(b2, width).value.1, 4).Success? {
          var (count, b4) := TakeLE(TakeTextList(b2, width).value.1, 4).value;
          MappingsEndEarly(b4, width, count);
        }
      }
    }
  }

  /** A zero width is refused once the reserved bytes are there, a schema
      definition once its length is; all else that is refused is too short. */
  lemma HeaderRefusedFor(version: nat, b: seq<byte>)
    ensures var r := TakeStored(version, b);
            if |b| >= 100 && version != 1 && FromLE(b[45..47]) == 0 then r == Failure(ZeroSymbolWidth)
            else if |b| >= 104 && FromLE(b[100..104]) != 0 then r == Failure(SchemaDefinitions)
            else r.Success? || r == Failure(EndsEarly)
  {
    hide TakeLists;
    if |b| >= 42 {
      assert TakeQuery(b).Success? by {
        hide FromLE;
      }
      QueryIsAt(b);
      var at := if version == 1 then 50 else 42;
      if |b| >= at + 3 {
        FlagsAreAt(version, b);
        LayoutRefusedFor(version, b);
        if TakeLayout(version, b[at + 3..]).Success? {
          LayoutIsAt(version, b);
          ListsEndEarly(b[104..], TakeLayout(version, b[at + 3..]).value.0.width);
        }
      }
    }
  }

  lemma LayoutRefusedFor(version: nat, b: seq<byte>)
    requires |b| >= if version == 1 then 53 else 45
    ensures var r := TakeLayout(version, b[if version == 1 then 53 else 45..]);
            if |b| >= 100 && version != 1 && FromLE(b[45..47]) == 0 then r == Failure(ZeroSymbolWidth)
            else if |b| >= 104 && FromLE(b[100..104]) != 0 then r == Failure(SchemaDefinitions)
            else r.Success? || r == Failure(EndsEarly)
  {
    if |b| >= 100 {
      if version == 1 {
        TakeAt(b, b[53..], 53, 47);
      } else {
        TakeAt(b, b[45..], 45, 2);
        TakeAt(b, b[47..], 47, 53);
      }
      if |b| >= 104 {
        TakeAt(b, b[100..], 100, 4);
      }
    }
  }

  lemma {:induction false} TextsOntoLength(texts: seq<seq<byte>>, t: seq<byte>)
    ensures |TextsOnto(texts, t)| >= |t|
  {
    if texts != [] {
      TextsOntoLength(texts[1..], t);
    }
  }

  /** The check of the declared length against 100 admits lengths that cannot
      hold a header: the schema-definition length and the four counts take 20
      bytes more, and every shorter header is refused later. */
  lemma HeaderNeeds120Bytes(version: nat, b: seq<byte>)
    requires TakeStored(version, b).Success?
    ensures |b| >= FIXED_LEN + 20
  {
    EncodeInvertsDecode(version, b);
    var (s, t) := TakeStored(version, b).value;
    var t4 := MappingsOnto(s.lists.mappings, t);
    var t3 := ToLE(|s.lists.mappings|, 4) + t4;
    var t2 := TextListOnto(s.lists.notFound, t3);
    var t1 := TextListOnto(s.lists.partial, t2);
    TextsOntoLength(s.lists.notFound, t3);
    TextsOntoLength(s.lists.partial, t2);
    TextsOntoLength(s.lists.symbols, t1);
  }
}
