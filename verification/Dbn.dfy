/** The Databento Binary Encoding: its constants and the metadata of a file. */
module Dbn {
  import opened Bytes
  import opened Wrappers

  const MAX_VERSION: nat := 3
  const PRELUDE_LEN: nat := 8
  const DATASET_CSTR_LEN: nat := 16
  const FIXED_LEN: nat := 100
  const RESERVED_LEN_V1: nat := 47
  const RESERVED_LEN: nat := 53
  const SYMBOL_CSTR_LEN_V1: nat := 22

  const NULL_SCHEMA: nat := 0xFFFF
  const NULL_STYPE: nat := 0xFF

  const U32: nat := 0x1_0000_0000
  const U64: nat := 0x1_0000_0000_0000_0000
  const UNDEF_TIMESTAMP: nat := U64 - 1
  const UNDEF_PRICE: int := 0x7FFF_FFFF_FFFF_FFFF
  const UNDEF_ORDER_SIZE: nat := U32 - 1

  const SCHEMA_MBO: nat := 0
  const SCHEMA_TRADES: nat := 4
  const RTYPE_MBO: byte := 0xA0
  const RTYPE_MBP_0: byte := 0x00

  const MBO_LEN: nat := 56
  const TRADE_LEN: nat := 48
  const TS_OUT_LEN: nat := 8

  /** Text is kept as its bytes. */
  type Text = seq<byte>

  datatype MappingInterval = MappingInterval(startDate: nat, endDate: nat, symbol: Text)

  datatype SymbolMapping = SymbolMapping(rawSymbol: Text, intervals: seq<MappingInterval>)

  datatype Metadata = Metadata(
    version: nat,
    dataset: Text,
    schema: Option<nat>,
    start: nat,
    end: Option<nat>,
    limit: Option<nat>,
    stypeIn: Option<nat>,
    stypeOut: nat,
    tsOut: bool,
    symbolCstrLen: nat,
    symbols: seq<Text>,
    partial: seq<Text>,
    notFound: seq<Text>,
    mappings: seq<SymbolMapping>)
}
