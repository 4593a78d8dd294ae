/** Concrete conversions, one per lemma. */
module Scenarios {
  import opened Wrappers
  import opened FfiTypes
  import CText
  import LogLevel
  import ExchangeType
  import Records

  /** Log level takes the two-argument form: 0 and 5 are accepted, 6 is not. */
  lemma LogLevelBounds()
    ensures LogLevel.Lift(0) == Ok(LogLevel.Fatal)
    ensures LogLevel.Lift(5) == Ok(LogLevel.Trace)
    ensures LogLevel.Lift(6) == Err(RangeCheckFailed)
  {
  }

  /** Exchange code 1 is Shanghai and lowers back to 1; code 7 is rejected. */
  lemma ExchangeCodes()
    ensures ExchangeType.Lift(1) == Ok(ExchangeType.SH) && ExchangeType.Lower(ExchangeType.SH) == 1
    ensures ExchangeType.Lift(7) == Err(RangeCheckFailed)
  {
  }

  /** The ticker "600000" ('6' is 0x36, '0' is 0x30), NUL-padded. */
  const Ticker600000: CBuffer := [0x36, 0x30, 0x30, 0x30, 0x30, 0x30, 0, 0, 0, 0, 0, 0, 0, 0, 0, 0]

  /** An order book from Shenzhen (code 2) keeps its ticker text, its last
      price bit for bit, and its bid levels element for element. */
  lemma ShenzhenOrderBook(ob: Records.XTPOB, lossy: CText.Decoder)
    requires ob.exchange_id == 2 && ob.ticker == Ticker600000
    ensures CText.Terminated(ob.ticker)
    ensures CText.CStrBytes(ob.ticker) == [0x36, 0x30, 0x30, 0x30, 0x30, 0x30]
    ensures var r := Records.OrderBookFromRaw(ob, lossy);
      && r.Ok?
      && r.value.exchange_id == ExchangeType.SZ
      && r.value.ticker == lossy([0x36, 0x30, 0x30, 0x30, 0x30, 0x30])
      && r.value.last_price == ob.last_price
      && r.value.bid == ob.bid
  {
    CText.TerminatedTextReadsBack([0x36, 0x30, 0x30, 0x30, 0x30, 0x30], [0, 0, 0, 0, 0, 0, 0, 0, 0]);
    assert ob.ticker == [0x36, 0x30, 0x30, 0x30, 0x30, 0x30] + [0] + [0, 0, 0, 0, 0, 0, 0, 0, 0];
  }

  /** A response with error id -1 keeps the id; its message is the decoding
      of the bytes before the first NUL and nothing after it. */
  lemma NegativeErrorId(raw: Records.XTPRI, lossy: CText.Decoder)
    requires raw.error_id == -1 && raw.error_msg == [0x6f, 0x6b, 0xff, 0, 0x78]
    ensures CText.Terminated(raw.error_msg)
    ensures Records.RspInfoFromRaw(raw, lossy) == Records.XTPRspInfoStruct(-1, lossy([0x6f, 0x6b, 0xff]))
  {
    CText.TerminatedTextReadsBack([0x6f, 0x6b, 0xff], [0x78]);
    assert raw.error_msg == [0x6f, 0x6b, 0xff] + [0] + [0x78];
  }

  /** A tick-by-tick record with a valid exchange but type code 3 fails as a
      whole. */
  lemma TickByTickBadType(tbt: Records.XTPTBT, lossy: CText.Decoder)
    requires CText.Terminated(tbt.ticker)
    requires tbt.exchange_id == 1 && tbt.type_ == 3
    ensures Records.TickByTickFromRaw(tbt, lossy) == Err(RangeCheckFailed)
  {
  }
}
