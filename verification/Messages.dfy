/** The wire record and its integer widths. */
module Messages {
  type u8 = x: int | 0 <= x < 0x100
  type u16 = x: int | 0 <= x < 0x1_0000
  type u32 = x: int | 0 <= x < 0x1_0000_0000
  type u64 = x: int | 0 <= x < 0x1_0000_0000_0000_0000

  const TWO_64: int := 0x1_0000_0000_0000_0000

  /** Simulated time per tick. */
  const TICK_INTERVAL_NS: u64 := 100_000_000

  /** The most outcomes a record has room for, and the prices it may carry. */
  const MAX_OUTCOMES: nat := 4
  const MIN_ODDS_MILLI: u32 := 1001
  const MAX_ODDS_MILLI: u32 := 1_000_000

  /** Decimal odds times 1000, one slot per outcome; unused slots are zero. */
  type OddsArray = s: seq<u32> | |s| == 4 witness [0, 0, 0, 0]

  datatype OddsUpdate = OddsUpdate(seqNo: u64, simTimestamp: u64, bookId: u16, marketId: u16,
                                   outcomeCount: u8, oddsMilli: OddsArray)
}
