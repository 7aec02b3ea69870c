/** The text forms the file metadata gives to symbol lists and mappings, and
    when they can be read back. */
module MappingText {
  import opened Wrappers
  import opened Bytes
  import opened Dbn

  const DASH: byte := 45
  const ZERO: byte := 48
  const SEMICOLON: byte := 59
  const EQUALS: byte := 61
  const AT: byte := 64

  // ---- Decimal numbers ----

  predicate IsDigit(c: byte) {
    ZERO <= c < ZERO + 10
  }

  predicate IsNumber(text: Text) {
    text != [] && forall i :: 0 <= i < |text| ==> IsDigit(text[i])
  }

  function Decimal(n: nat): (text: Text)
    ensures IsNumber(text) && (n > 0 ==> text[0] != ZERO)
  {
    if n < 10 then [ZERO + n] else Decimal(n / 10) + [ZERO + n % 10]
  }

  function ParseDecimal(text: Text): nat
    requires forall i :: 0 <= i < |text| ==> IsDigit(text[i])
  {
    if text == [] then 0 else
    var last: int := text[|text| - 1];
    assert IsDigit(text[|text| - 1]);
    10 * ParseDecimal(text[..|text| - 1]) + (last - ZERO)
  }

  lemma {:induction false} DecimalRoundTrip(n: nat)
    ensures ParseDecimal(Decimal(n)) == n
  {
    if n >= 10 {
      DecimalRoundTrip(n / 10);
      assert Decimal(n)[..|Decimal(n)| - 1] == Decimal(n / 10);
    } else {
      assert Decimal(n)[..0] == [];
    }
  }

  // ---- Joining and splitting ----

  /** The loop of `join`: a separator goes in front of an item unless the text
      is still empty. */
  method JoinLoop(items: seq<Text>, sep: byte) returns (text: Text)
    ensures text == Join(items, sep)
  {
    text := [];
    for i := 0 to |items|
      invariant text == Join(items[..i], sep)
    {
      if text != [] {
        text := text + [sep];
      }
      text := text + items[i];
      assert items[..i + 1][..i] == items[..i];
    }
    assert items[..|items|] == items;
  }

  function Join(items: seq<Text>, sep: byte): Text {
    if items == [] then [] else
    var before := Join(items[..|items| - 1], sep);
    (if before == [] then [] else before + [sep]) + items[|items| - 1]
  }

  /** The pieces between separators; an empty text has none. */
  function Split(text: Text, sep: byte): (items: seq<Text>)
    ensures text != [] ==> items != []
  {
    if text == [] then [] else Pieces(text, sep)
  }

  function Pieces(text: Text, sep: byte): (items: seq<Text>)
    ensures items != []
  {
    if text == [] then [[]] else
    var n := |text| - 1;
    var before := Pieces(text[..n], sep);
    if text[n] == sep then before + [[]]
    else Extend(before, [text[n]])
  }

  /** The pieces with more text at the end of the last. */
  function Extend(items: seq<Text>, more: Text): (extended: seq<Text>)
    requires items != []
    ensures |extended| == |items|
  {
    items[..|items| - 1] + [items[|items| - 1] + more]
  }

  lemma ExtendTwice(items: seq<Text>, a: Text, b: Text)
    requires items != []
    ensures Extend(Extend(items, a), b) == Extend(items, a + b)
  {
    var last := items[|items| - 1];
    assert (last + a) + b == last + (a + b);
    assert Extend(items, a)[..|items| - 1] == items[..|items| - 1];
  }

  lemma PiecesNext(text: Text, c: byte, sep: byte)
    requires c != sep
    ensures Pieces(text + [c], sep) == Extend(Pieces(text, sep), [c])
  {
    assert (text + [c])[..|text|] == text;
  }

  lemma {:induction false} PiecesEnd(text: Text, item: Text, sep: byte)
    requires sep !in item
    ensures Pieces(text + item, sep) == Extend(Pieces(text, sep), item)
  {
    var p := Pieces(text, sep);
    if item == [] {
      assert text + item == text;
      assert p[|p| - 1] + item == p[|p| - 1];
    } else {
      var n := |item| - 1;
      var start, c := item[..n], item[n];
      assert item == start + [c];
      PiecesEnd(text, start, sep);
      PiecesNext(text + start, c, sep);
      ExtendTwice(p, start, [c]);
      assert text + item == (text + start) + [c];
    }
  }

  lemma {:induction false} PiecesCount(text: Text, sep: byte)
    ensures |Pieces(text, sep)| == Count(text, sep) + 1
  {
    if text != [] {
      PiecesCount(text[..|text| - 1], sep);
    }
  }

  function Count(text: Text, c: byte): nat {
    if text == [] then 0 else Count(text[..|text| - 1], c) + if text[|text| - 1] == c then 1 else 0
  }

  ghost predicate Clean(items: seq<Text>, sep: byte) {
    forall i :: 0 <= i < |items| ==> sep !in items[i]
  }

  lemma {:induction false} JoinFirst(items: seq<Text>, sep: byte)
    requires items != [] && items[0] != []
    ensures Join(items, sep) != []
  {
    var n := |items| - 1;
    if n > 0 {
      JoinFirst(items[..n], sep);
    }
  }

  lemma {:induction false} SplitJoin(items: seq<Text>, sep: byte)
    requires Clean(items, sep) && (items != [] ==> items[0] != [])
    ensures Split(Join(items, sep), sep) == items
  {
    if items != [] {
      var n := |items| - 1;
      var before := Join(items[..n], sep);
      assert Clean(items[..n], sep);
      SplitJoin(items[..n], sep);
      JoinFirst(items, sep);
      if n > 0 {
        JoinFirst(items[..n], sep);
        assert (before + [sep])[..|before|] == before;
        assert Pieces(before + [sep], sep) == Pieces(before, sep) + [[]];
        PiecesEnd(before + [sep], items[n], sep);
        assert [] + items[n] == items[n];
        assert items == items[..n] + [items[n]];
      } else {
        PiecesEnd([], items[0], sep);
        assert [] + items[0] == items[0];
        assert items == [items[0]];
      }
    }
  }

  lemma {:induction false} PiecesClean(text: Text, sep: byte)
    ensures Clean(Pieces(text, sep), sep)
  {
    if text != [] {
      PiecesClean(text[..|text| - 1], sep);
    }
  }

  lemma {:induction false} CountJoined(a: Text, b: Text, c: byte)
    ensures Count(a + b, c) == Count(a, c) + Count(b, c)
  {
    if b == [] {
      assert a + b == a;
    } else {
      var n := |b| - 1;
      CountJoined(a, b[..n], c);
      assert (a + b)[..|a| + n] == a + b[..n];
    }
  }

  lemma {:induction false} CountNone(text: Text, c: byte)
    requires c !in text
    ensures Count(text, c) == 0
  {
    if text != [] {
      CountNone(text[..|text| - 1], c);
    }
  }

  /** Leading empty items leave no separator behind. */
  lemma {:induction false} JoinDropsEmpty(items: seq<Text>, sep: byte)
    requires Clean(items, sep) && items != [] && items[0] == []
    ensures Join(items, sep) == [] || Count(Join(items, sep), sep) <= |items| - 2
  {
    var n := |items| - 1;
    if n > 0 {
      var before := Join(items[..n], sep);
      assert Clean(items[..n], sep);
      JoinDropsEmpty(items[..n], sep);
      CountNone(items[n], sep);
      if before != [] {
        assert [sep][..0] == [] && Count([sep], sep) == 1;
        CountJoined(before, [sep], sep);
        CountJoined(before + [sep], items[n], sep);
      } else {
        assert Join(items, sep) == items[n];
      }
    }
  }

  /** A joined list can be read back exactly if no item holds the separator and
      the first item, if any, is not empty. */
  lemma JoinReadableIff(items: seq<Text>, sep: byte)
    ensures Split(Join(items, sep), sep) == items <==> Clean(items, sep) && (items != [] ==> items[0] != [])
  {
    var text := Join(items, sep);
    if Clean(items, sep) && (items != [] ==> items[0] != []) {
      SplitJoin(items, sep);
    } else if Split(text, sep) == items {
      PiecesClean(text, sep);
      PiecesCount(text, sep);
      JoinDropsEmpty(items, sep);
    }
  }

  /** A list and the same list behind an empty item have one text. */
  lemma {:induction false} JoinForgetsEmptyFirst(items: seq<Text>, sep: byte)
    ensures Join([[]] + items, sep) == Join(items, sep)
  {
    var all: seq<Text> := [[]] + items;
    if items == [] {
      assert all[..0] == [] && all == [[]];
    } else {
      var n := |items| - 1;
      JoinForgetsEmptyFirst(items[..n], sep);
      assert all[..|all| - 1] == [[]] + items[..n] && all[|all| - 1] == items[n];
    }
  }

  // ---- Mappings ----

  /** One mapping of one date range. */
  datatype Entry = Entry(rawSymbol: Text, symbol: Text, startDate: nat, endDate: nat)

  function EntriesOf(rawSymbol: Text, ivs: seq<MappingInterval>): seq<Entry> {
    if ivs == [] then [] else
    EntriesOf(rawSymbol, ivs[..|ivs| - 1]) +
    (var iv := ivs[|ivs| - 1]; [Entry(rawSymbol, iv.symbol, iv.startDate, iv.endDate)])
  }

  function Flatten(ms: seq<SymbolMapping>): seq<Entry> {
    if ms == [] then [] else
    Flatten(ms[..|ms| - 1]) + EntriesOf(ms[|ms| - 1].rawSymbol, ms[|ms| - 1].intervals)
  }

  /** How many intervals the mappings have. */
  function Intervals(ms: seq<SymbolMapping>): nat {
    if ms == [] then 0 else Intervals(ms[..|ms| - 1]) + |ms[|ms| - 1].intervals|
  }

  lemma {:induction false} EntriesOfAt(rawSymbol: Text, ivs: seq<MappingInterval>, j: nat)
    ensures |EntriesOf(rawSymbol, ivs)| == |ivs|
    ensures j < |ivs| ==> EntriesOf(rawSymbol, ivs)[j] == Entry(rawSymbol, ivs[j].symbol, ivs[j].startDate, ivs[j].endDate)
  {
    if ivs != [] {
      EntriesOfAt(rawSymbol, ivs[..|ivs| - 1], j);
    }
  }

  /** There is one entry for each interval, mapping by mapping and in order:
      interval `j` of mapping `i` stands behind those of the mappings before. */
  lemma {:induction false} FlattenAt(ms: seq<SymbolMapping>, i: nat, j: nat)
    ensures |Flatten(ms)| == Intervals(ms)
    ensures i < |ms| && j < |ms[i].intervals| ==>
              var iv := ms[i].intervals[j];
              && Intervals(ms[..i]) + j < Intervals(ms)
              && Flatten(ms)[Intervals(ms[..i]) + j] == Entry(ms[i].rawSymbol, iv.symbol, iv.startDate, iv.endDate)
    decreases |ms|
  {
    if ms != [] {
      var n := |ms| - 1;
      FlattenAt(ms[..n], i, j);
      EntriesOfAt(ms[n].rawSymbol, ms[n].intervals, j);
      if i < n {
        assert ms[..n][..i] == ms[..i];
      }
    }
  }

  function DatesText(e: Entry): Text {
    Decimal(e.startDate) + [DASH] + Decimal(e.endDate)
  }

  /** raw_symbol=symbol@start-end */
  function EntryText(e: Entry): (text: Text)
    ensures text != []
  {
    e.rawSymbol + [EQUALS] + (e.symbol + [AT] + DatesText(e))
  }

  function EntryTexts(es: seq<Entry>): (texts: seq<Text>)
    ensures |texts| == |es|
  {
    seq(|es|, i requires 0 <= i < |es| => EntryText(es[i]))
  }

  /** A text with one more entry: a separator unless it is still empty. */
  lemma JoinPush(es: seq<Entry>, e: Entry)
    ensures var text := Join(EntryTexts(es), SEMICOLON);
            Join(EntryTexts(es + [e]), SEMICOLON) == (if text == [] then [] else text + [SEMICOLON]) + EntryText(e)
  {
    assert EntryTexts(es + [e])[..|es|] == EntryTexts(es);
  }

  lemma EntriesPush(before: seq<Entry>, rawSymbol: Text, ivs: seq<MappingInterval>, j: nat)
    requires j < |ivs|
    ensures var iv := ivs[j];
            before + EntriesOf(rawSymbol, ivs[..j + 1])
            == before + EntriesOf(rawSymbol, ivs[..j]) + [Entry(rawSymbol, iv.symbol, iv.startDate, iv.endDate)]
  {
    assert ivs[..j + 1][..j] == ivs[..j];
  }

  /** The inner loop: one mapping's entries behind those written `before`. */
  method WriteMapping(m: SymbolMapping, start: Text, ghost before: seq<Entry>) returns (text: Text)
    requires start == Join(EntryTexts(before), SEMICOLON)
    ensures text == Join(EntryTexts(before + EntriesOf(m.rawSymbol, m.intervals)), SEMICOLON)
  {
    text := start;
    assert before + EntriesOf(m.rawSymbol, m.intervals[..0]) == before;
    for j := 0 to |m.intervals|
      invariant text == Join(EntryTexts(before + EntriesOf(m.rawSymbol, m.intervals[..j])), SEMICOLON)
    {
      var iv := m.intervals[j];
      var entry := Entry(m.rawSymbol, iv.symbol, iv.startDate, iv.endDate);
      JoinPush(before + EntriesOf(m.rawSymbol, m.intervals[..j]), entry);
      EntriesPush(before, m.rawSymbol, m.intervals, j);
      if text != [] {
        text := text + [SEMICOLON];
      }
      text := text + EntryText(entry);
    }
    assert m.intervals[..|m.intervals|] == m.intervals;
  }

  /** The text of all mappings, entries separated by semicolons. */
  method WriteMappings(ms: seq<SymbolMapping>) returns (text: Text)
    ensures text == Join(EntryTexts(Flatten(ms)), SEMICOLON)
  {
    text := [];
    for i := 0 to |ms|
      invariant text == Join(EntryTexts(Flatten(ms[..i])), SEMICOLON)
    {
      text := WriteMapping(ms[i], text, Flatten(ms[..i]));
      assert ms[..i + 1][..i] == ms[..i];
    }
    assert ms[..|ms|] == ms;
  }

  // ---- Reading the mappings back ----

  function FirstIndex(text: Text, c: byte): (i: nat)
    ensures i <= |text|
  {
    if text == [] || text[0] == c then 0 else 1 + FirstIndex(text[1..], c)
  }

  /** The end of what precedes the last `c`; the whole length without one. */
  function LastIndex(text: Text, c: byte): (i: nat)
    ensures i <= |text|
  {
    if text == [] then 0 else
    if text[|text| - 1] == c then |text| - 1 else
    var i := LastIndex(text[..|text| - 1], c);
    if i == |text| - 1 then |text| else i
  }

  lemma {:induction false} FirstIndexAfter(a: Text, c: byte, b: Text)
    requires c !in a
    ensures FirstIndex(a + [c] + b, c) == |a|
  {
    if a != [] {
      assert (a + [c] + b)[1..] == a[1..] + [c] + b;
      FirstIndexAfter(a[1..], c, b);
    }
  }

  lemma {:induction false} LastIndexBefore(a: Text, c: byte, b: Text)
    requires c !in b
    ensures LastIndex(a + [c] + b, c) == |a|
  {
    if b != [] {
      var n := |b| - 1;
      assert (a + [c] + b)[..|a| + 1 + n] == a + [c] + b[..n];
      LastIndexBefore(a, c, b[..n]);
    }
  }

  /** Splits at the first '=', the last '-', and the last '@' before it. */
  function ParseEntry(text: Text): Option<Entry> {
    var eq := FirstIndex(text, EQUALS);
    if eq == |text| then None else
    var (raw, rest) := (text[..eq], text[eq + 1..]);
    var dash := LastIndex(rest, DASH);
    if dash == |rest| then None else
    var (front, end) := (rest[..dash], rest[dash + 1..]);
    var at := LastIndex(front, AT);
    if at == |front| then None else
    var (symbol, start) := (front[..at], front[at + 1..]);
    if !IsNumber(start) || !IsNumber(end) then None else
    Some(Entry(raw, symbol, ParseDecimal(start), ParseDecimal(end)))
  }

  function ParseEntries(texts: seq<Text>): Option<seq<Entry>> {
    if texts == [] then Some([]) else
    match (ParseEntry(texts[0]), ParseEntries(texts[1..]))
    case (Some(e), Some(es)) => Some([e] + es)
    case _ => None
  }

  function ParseMappings(text: Text): Option<seq<Entry>> {
    ParseEntries(Split(text, SEMICOLON))
  }

  lemma CutAt(a: Text, c: byte, b: Text)
    ensures (a + [c] + b)[..|a|] == a && (a + [c] + b)[|a| + 1..] == b && |a| < |a + [c] + b|
  {
  }

  lemma EntryRest(e: Entry)
    ensures e.symbol + [AT] + DatesText(e) == (e.symbol + [AT] + Decimal(e.startDate)) + [DASH] + Decimal(e.endDate)
  {
  }

  lemma EntryRoundTrip(e: Entry)
    requires EQUALS !in e.rawSymbol
    ensures ParseEntry(EntryText(e)) == Some(e)
  {
    hide FirstIndex, LastIndex, Decimal, ParseDecimal, IsNumber;
    var start, end := Decimal(e.startDate), Decimal(e.endDate);
    DecimalRoundTrip(e.startDate);
    DecimalRoundTrip(e.endDate);
    var front := e.symbol + [AT] + start;
    var rest := front + [DASH] + end;
    EntryRest(e);
    assert EntryText(e) == e.rawSymbol + [EQUALS] + rest;
    CutAt(e.rawSymbol, EQUALS, rest);
    CutAt(front, DASH, end);
    CutAt(e.symbol, AT, start);
    FirstIndexAfter(e.rawSymbol, EQUALS, rest);
    NoByte(end, DASH);
    LastIndexBefore(front, DASH, end);
    NoByte(start, AT);
    LastIndexBefore(e.symbol, AT, start);
  }

  lemma NoByte(text: Text, c: byte)
    requires IsNumber(text) && !IsDigit(c)
    ensures c !in text
  {
  }

  lemma TextsSplit(es: seq<Entry>)
    requires es != []
    ensures EntryTexts(es)[0] == EntryText(es[0]) && EntryTexts(es)[1..] == EntryTexts(es[1..])
  {
  }

  lemma {:induction false} EntriesRoundTrip(es: seq<Entry>)
    requires forall i :: 0 <= i < |es| ==> EQUALS !in es[i].rawSymbol
    ensures ParseEntries(EntryTexts(es)) == Some(es)
  {
    if es != [] {
      EntryRoundTrip(es[0]);
      EntriesRoundTrip(es[1..]);
      TextsSplit(es);
      assert [es[0]] + es[1..] == es;
    }
  }

  lemma EntryClean(e: Entry)
    requires SEMICOLON !in e.rawSymbol && SEMICOLON !in e.symbol
    ensures SEMICOLON !in EntryText(e)
  {
    DecimalRoundTrip(e.startDate);
    DecimalRoundTrip(e.endDate);
  }

  // ---- When the mappings can be read back ----

  predicate ReadableEntry(e: Entry) {
    SEMICOLON !in e.rawSymbol && EQUALS !in e.rawSymbol && SEMICOLON !in e.symbol
  }

  ghost predicate AllReadable(es: seq<Entry>) {
    forall i :: 0 <= i < |es| ==> ReadableEntry(es[i])
  }

  /** Separators inside the items. */
  function Inside(items: seq<Text>, sep: byte): nat {
    if items == [] then 0 else Inside(items[..|items| - 1], sep) + Count(items[|items| - 1], sep)
  }

  lemma {:induction false} JoinCount(items: seq<Text>, sep: byte)
    requires items != [] && items[0] != []
    ensures Count(Join(items, sep), sep) == |items| - 1 + Inside(items, sep)
  {
    var n := |items| - 1;
    if n > 0 {
      var before := Join(items[..n], sep);
      JoinCount(items[..n], sep);
      JoinFirst(items[..n], sep);
      assert [sep][..0] == [] && Count([sep], sep) == 1;
      CountJoined(before, [sep], sep);
      CountJoined(before + [sep], items[n], sep);
    } else {
      assert items[..0] == [];
      assert Join(items, sep) == [] + items[0] == items[0];
    }
  }

  lemma {:induction false} InsideNone(items: seq<Text>, sep: byte)
    requires Inside(items, sep) == 0
    ensures Clean(items, sep)
  {
    if items != [] {
      InsideNone(items[..|items| - 1], sep);
      CountZero(items[|items| - 1], sep);
      assert forall i :: 0 <= i < |items| - 1 ==> items[i] == items[..|items| - 1][i];
    }
  }

  lemma {:induction false} CountZero(text: Text, c: byte)
    requires Count(text, c) == 0
    ensures c !in text
  {
    if text != [] {
      CountZero(text[..|text| - 1], c);
      assert text == text[..|text| - 1] + [text[|text| - 1]];
    }
  }

  lemma {:induction false} FirstIndexIsFirst(text: Text, c: byte)
    ensures c !in text[..FirstIndex(text, c)]
  {
    if text != [] && text[0] != c {
      FirstIndexIsFirst(text[1..], c);
      assert text[..FirstIndex(text, c)] == [text[0]] + text[1..][..FirstIndex(text[1..], c)];
    }
  }

  /** What the parser returns has one entry a piece, and no '=' in a raw symbol. */
  lemma {:induction false} ParsedEntries(texts: seq<Text>)
    requires ParseEntries(texts).Some?
    ensures |ParseEntries(texts).value| == |texts|
    ensures forall e :: e in ParseEntries(texts).value ==> EQUALS !in e.rawSymbol
  {
    if texts != [] {
      FirstIndexIsFirst(texts[0], EQUALS);
      ParsedEntries(texts[1..]);
    }
  }

  lemma EntryNotClean(e: Entry)
    requires SEMICOLON !in EntryText(e)
    ensures SEMICOLON !in e.rawSymbol && SEMICOLON !in e.symbol
  {
    var text := EntryText(e);
    assert forall i :: 0 <= i < |e.rawSymbol| ==> text[i] == e.rawSymbol[i];
    assert forall i :: 0 <= i < |e.symbol| ==> text[|e.rawSymbol| + 1 + i] == e.symbol[i];
  }

  lemma EntriesCanBeRead(es: seq<Entry>)
    requires AllReadable(es)
    ensures ParseMappings(Join(EntryTexts(es), SEMICOLON)) == Some(es)
  {
    forall i | 0 <= i < |es|
      ensures SEMICOLON !in EntryTexts(es)[i]
    {
      EntryClean(es[i]);
    }
    SplitJoin(EntryTexts(es), SEMICOLON);
    EntriesRoundTrip(es);
  }

  lemma ReadEntriesAreReadable(es: seq<Entry>)
    requires ParseMappings(Join(EntryTexts(es), SEMICOLON)) == Some(es)
    ensures AllReadable(es)
  {
    if es != [] {
      var texts := EntryTexts(es);
      var text := Join(texts, SEMICOLON);
      JoinFirst(texts, SEMICOLON);
      ParsedEntries(Split(text, SEMICOLON));
      PiecesCount(text, SEMICOLON);
      JoinCount(texts, SEMICOLON);
      InsideNone(texts, SEMICOLON);
      forall i | 0 <= i < |es|
        ensures ReadableEntry(es[i])
      {
        assert es[i] in es && texts[i] == EntryText(es[i]);
        EntryNotClean(es[i]);
      }
    }
  }

  /** Entries can be read back, dates included, exactly if no symbol holds a ';'
      and no raw symbol a ';' or an '='. A '-' or '@' does no harm. */
  lemma EntriesReadableIff(es: seq<Entry>)
    ensures ParseMappings(Join(EntryTexts(es), SEMICOLON)) == Some(es) <==> AllReadable(es)
  {
    if AllReadable(es) {
      EntriesCanBeRead(es);
    } else if ParseMappings(Join(EntryTexts(es), SEMICOLON)) == Some(es) {
      ReadEntriesAreReadable(es);
    }
  }

  /** The same of the mappings; one without a date range is not written. */
  ghost predicate Readable(ms: seq<SymbolMapping>) {
    forall i :: 0 <= i < |ms| ==> ReadableRanges(ms[i].rawSymbol, ms[i].intervals)
  }

  ghost predicate ReadableRanges(rawSymbol: Text, ivs: seq<MappingInterval>) {
    forall j :: 0 <= j < |ivs| ==>
      SEMICOLON !in rawSymbol && EQUALS !in rawSymbol && SEMICOLON !in ivs[j].symbol
  }

  lemma {:induction false} RangesReadable(rawSymbol: Text, ivs: seq<MappingInterval>)
    ensures AllReadable(EntriesOf(rawSymbol, ivs)) <==> ReadableRanges(rawSymbol, ivs)
    ensures |EntriesOf(rawSymbol, ivs)| == |ivs|
  {
    if ivs != [] {
      var n := |ivs| - 1;
      RangesReadable(rawSymbol, ivs[..n]);
      var e := Entry(rawSymbol, ivs[n].symbol, ivs[n].startDate, ivs[n].endDate);
      ReadableJoined(EntriesOf(rawSymbol, ivs[..n]), [e]);
      assert [e][0] == e;
      assert ReadableRanges(rawSymbol, ivs) <==> ReadableRanges(rawSymbol, ivs[..n]) && ReadableEntry(e) by {
        assert forall j :: 0 <= j < n ==> ivs[..n][j] == ivs[j];
      }
    }
  }

  lemma ReadableJoined(a: seq<Entry>, b: seq<Entry>)
    ensures AllReadable(a + b) <==> AllReadable(a) && AllReadable(b)
  {
    assert forall i :: 0 <= i < |a| ==> a[i] == (a + b)[i];
    assert forall i :: 0 <= i < |b| ==> b[i] == (a + b)[|a| + i];
  }

  lemma {:induction false} FlattenReadable(ms: seq<SymbolMapping>)
    ensures AllReadable(Flatten(ms)) <==> Readable(ms)
  {
    if ms != [] {
      var n := |ms| - 1;
      FlattenReadable(ms[..n]);
      RangesReadable(ms[n].rawSymbol, ms[n].intervals);
      ReadableJoined(Flatten(ms[..n]), EntriesOf(ms[n].rawSymbol, ms[n].intervals));
      assert forall i :: 0 <= i < n ==> ms[..n][i] == ms[i];
    }
  }

  /** The mappings can be read back as the flat list of their entries exactly if
      they are readable. */
  lemma MappingsRoundTrip(ms: seq<SymbolMapping>)
    ensures ParseMappings(Join(EntryTexts(Flatten(ms)), SEMICOLON)) == Some(Flatten(ms)) <==> Readable(ms)
  {
    FlattenReadable(ms);
    EntriesReadableIff(Flatten(ms));
  }

  /** With an '=' in the raw symbol the text is ambiguous: no parser can tell
      these two entries apart. */
  lemma EqualsIsAmbiguous(a: Text, b: Text, c: Text, startDate: nat, endDate: nat)
    ensures EntryText(Entry(a + [EQUALS] + b, c, startDate, endDate)) == EntryText(Entry(a, b + [EQUALS] + c, startDate, endDate))
    ensures Entry(a + [EQUALS] + b, c, startDate, endDate) != Entry(a, b + [EQUALS] + c, startDate, endDate)
  {
    assert |a + [EQUALS] + b| > |a|;
  }

  /** With a ';' in a symbol as well: one entry and two can have the same text. */
  lemma SemicolonIsAmbiguous(a: Entry, b: Entry)
    ensures var one := Entry(a.rawSymbol, a.symbol + [AT] + DatesText(a) + [SEMICOLON] + b.rawSymbol + [EQUALS] + b.symbol,
                             b.startDate, b.endDate);
            Join(EntryTexts([one]), SEMICOLON) == Join(EntryTexts([a, b]), SEMICOLON)
  {
    var one := Entry(a.rawSymbol, a.symbol + [AT] + DatesText(a) + [SEMICOLON] + b.rawSymbol + [EQUALS] + b.symbol,
                     b.startDate, b.endDate);
    JoinPush([], one);
    JoinPush([], a);
    JoinPush([a], b);
    assert EntryTexts([]) == [] && [] + [one] == [one] && [] + [a] == [a] && [a] + [b] == [a, b];
    assert EntryText(one) == EntryText(a) + [SEMICOLON] + EntryText(b);
  }
}
