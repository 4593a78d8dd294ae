/** Record marshaling: the `FromRaw` conversions from the native SDK's
    records to owned records. Categorical fields go through the domain's
    lift, text buffers through `carray_to_string`, and every other field is
    copied unchanged. A failed lift fails the whole conversion: no partial
    record is produced. */
module Records {
  import opened Wrappers
  import opened FfiTypes
  import BoundedCode
  import CText
  import ExchangeType
  import TbtType
  import TickerType

  // ---------------------------------------------------------------------------
  // Foreign records, with the fields the conversions read.

  /** Response info. */
  datatype XTPRI = XTPRI(error_id: i32, error_msg: CBuffer)

  /** Specific ticker (exchange and ticker code). */
  datatype XTPST = XTPST(exchange_id: u32, ticker: CBuffer)

  /** Order-book snapshot. */
  datatype XTPOB = XTPOB(
    exchange_id: u32,
    ticker: CBuffer,
    last_price: f64,
    qty: i64,
    turnover: f64,
    trades_count: i64,
    bid: PriceLevels,
    ask: PriceLevels,
    bid_qty: QtyLevels,
    ask_qty: QtyLevels,
    data_time: i64)

  /** Tick-by-tick envelope; `seq` and `type` are renamed `seq_no` and `type_`. */
  datatype XTPTBT = XTPTBT(exchange_id: u32, ticker: CBuffer, seq_no: i64, data_time: i64, type_: u32)

  /** Static quote information. */
  datatype XTPQSI = XTPQSI(
    exchange_id: u32,
    ticker: CBuffer,
    ticker_name: CBuffer,
    ticker_type: u32,
    pre_close_price: f64,
    upper_limit_price: f64,
    lower_limit_price: f64,
    price_tick: f64,
    buy_qty_unit: i32,
    sell_qty_unit: i32)

  /** Ticker price info. */
  datatype XTPTPI = XTPTPI(exchange_id: u32, ticker: CBuffer, last_price: f64)

  // ---------------------------------------------------------------------------
  // Owned records.

  datatype XTPRspInfoStruct = XTPRspInfoStruct(error_id: i32, error_msg: string)

  datatype XTPSpecificTickerStruct = XTPSpecificTickerStruct(
    exchange_id: ExchangeType.XTPExchangeType,
    ticker: string)

  datatype OrderBookStruct = OrderBookStruct(
    exchange_id: ExchangeType.XTPExchangeType,
    ticker: string,
    last_price: f64,
    qty: i64,
    turnover: f64,
    trades_count: i64,
    bid: PriceLevels,
    ask: PriceLevels,
    bid_qty: QtyLevels,
    ask_qty: QtyLevels,
    data_time: i64)

  datatype XTPTickByTickStruct = XTPTickByTickStruct(
    exchange_id: ExchangeType.XTPExchangeType,
    ticker: string,
    seq_no: i64,
    data_time: i64,
    type_: TbtType.XTPTbtType)

  datatype XTPQuoteStaticInfo = XTPQuoteStaticInfo(
    exchange_id: ExchangeType.XTPExchangeType,
    ticker: string,
    ticker_name: string,
    ticker_type: TickerType.XTPTickerType,
    pre_close_price: f64,
    upper_limit_price: f64,
    lower_limit_price: f64,
    price_tick: f64,
    buy_qty_unit: i32,
    sell_qty_unit: i32)

  datatype XTPTickerPriceInfo = XTPTickerPriceInfo(
    exchange_id: ExchangeType.XTPExchangeType,
    ticker: string,
    last_price: f64)

  // ---------------------------------------------------------------------------
  // What it means for an owned record to be the image of a foreign one: the
  // copied fields are equal, each categorical field lowers back to the foreign
  // code, and each text field is the decoding of the buffer's NUL-prefix.

  predicate ExchangeMirrors(code: u32, e: ExchangeType.XTPExchangeType) {
    ExchangeType.Lower(e) == code
  }

  predicate RspInfoMirrors(raw: XTPRI, o: XTPRspInfoStruct, lossy: CText.Decoder)
    requires CText.Terminated(raw.error_msg)
  {
    && o.error_id == raw.error_id
    && o.error_msg == CText.CArrayToString(raw.error_msg, lossy)
  }

  predicate SpecificTickerMirrors(raw: XTPST, o: XTPSpecificTickerStruct, lossy: CText.Decoder)
    requires CText.Terminated(raw.ticker)
  {
    && ExchangeMirrors(raw.exchange_id, o.exchange_id)
    && o.ticker == CText.CArrayToString(raw.ticker, lossy)
  }

  predicate OrderBookMirrors(ob: XTPOB, o: OrderBookStruct, lossy: CText.Decoder)
    requires CText.Terminated(ob.ticker)
  {
    && ExchangeMirrors(ob.exchange_id, o.exchange_id)
    && o.ticker == CText.CArrayToString(ob.ticker, lossy)
    && o.last_price == ob.last_price
    && o.qty == ob.qty
    && o.turnover == ob.turnover
    && o.trades_count == ob.trades_count
    && (forall k :: 0 <= k < DEPTH ==> o.bid[k] == ob.bid[k] && o.ask[k] == ob.ask[k])
    && (forall k :: 0 <= k < DEPTH ==> o.bid_qty[k] == ob.bid_qty[k] && o.ask_qty[k] == ob.ask_qty[k])
    && o.data_time == ob.data_time
  }

  predicate TickByTickMirrors(tbt: XTPTBT, o: XTPTickByTickStruct, lossy: CText.Decoder)
    requires CText.Terminated(tbt.ticker)
  {
    && ExchangeMirrors(tbt.exchange_id, o.exchange_id)
    && o.ticker == CText.CArrayToString(tbt.ticker, lossy)
    && o.seq_no == tbt.seq_no
    && o.data_time == tbt.data_time
    && TbtType.Lower(o.type_) == tbt.type_
  }

  predicate QuoteStaticInfoMirrors(qsi: XTPQSI, o: XTPQuoteStaticInfo, lossy: CText.Decoder)
    requires CText.Terminated(qsi.ticker) && CText.Terminated(qsi.ticker_name)
  {
    && ExchangeMirrors(qsi.exchange_id, o.exchange_id)
    && o.ticker == CText.CArrayToString(qsi.ticker, lossy)
    && o.ticker_name == CText.CArrayToString(qsi.ticker_name, lossy)
    && TickerType.Lower(o.ticker_type) == qsi.ticker_type
    && o.pre_close_price == qsi.pre_close_price
    && o.upper_limit_price == qsi.upper_limit_price
    && o.lower_limit_price == qsi.lower_limit_price
    && o.price_tick == qsi.price_tick
    && o.buy_qty_unit == qsi.buy_qty_unit
    && o.sell_qty_unit == qsi.sell_qty_unit
  }

  predicate TickerPriceInfoMirrors(tpi: XTPTPI, o: XTPTickerPriceInfo, lossy: CText.Decoder)
    requires CText.Terminated(tpi.ticker)
  {
    && ExchangeMirrors(tpi.exchange_id, o.exchange_id)
    && o.ticker == CText.CArrayToString(tpi.ticker, lossy)
    && o.last_price == tpi.last_price
  }

  // ---------------------------------------------------------------------------
  // The conversions.

  /** `FromRaw<XTPRI>`: has no categorical field, so it always succeeds. */
  function RspInfoFromRaw(raw: XTPRI, lossy: CText.Decoder): (o: XTPRspInfoStruct)
    requires CText.Terminated(raw.error_msg)
    ensures RspInfoMirrors(raw, o, lossy)
  {
    XTPRspInfoStruct(raw.error_id, CText.CArrayToString(raw.error_msg, lossy))
  }

  /** `FromRaw<XTPST>`. */
  function SpecificTickerFromRaw(raw: XTPST, lossy: CText.Decoder): (r: Result<XTPSpecificTickerStruct>)
    requires CText.Terminated(raw.ticker)
    ensures r.Ok? <==> BoundedCode.InRange(raw.exchange_id, ExchangeType.LB, ExchangeType.UB)
    ensures r.Err? ==> r.failure == RangeCheckFailed
    ensures r.Ok? ==> SpecificTickerMirrors(raw, r.value, lossy)
  {
    var exchange_id :- ExchangeType.Lift(raw.exchange_id);
    Ok(XTPSpecificTickerStruct(exchange_id, CText.CArrayToString(raw.ticker, lossy)))
  }

  /** `FromRaw<XTPOB>`. */
  function OrderBookFromRaw(ob: XTPOB, lossy: CText.Decoder): (r: Result<OrderBookStruct>)
    requires CText.Terminated(ob.ticker)
    ensures r.Ok? <==> BoundedCode.InRange(ob.exchange_id, ExchangeType.LB, ExchangeType.UB)
    ensures r.Err? ==> r.failure == RangeCheckFailed
    ensures r.Ok? ==> OrderBookMirrors(ob, r.value, lossy)
  {
    var exchange_id :- ExchangeType.Lift(ob.exchange_id);
    Ok(OrderBookStruct(
      exchange_id,
      CText.CArrayToString(ob.ticker, lossy),
      ob.last_price,
      ob.qty,
      ob.turnover,
      ob.trades_count,
      ob.bid,
      ob.ask,
      ob.bid_qty,
      ob.ask_qty,
      ob.data_time))
  }

  /** `FromRaw<XTPTBT>`: two categorical fields, both must be in range. */
  function TickByTickFromRaw(tbt: XTPTBT, lossy: CText.Decoder): (r: Result<XTPTickByTickStruct>)
    requires CText.Terminated(tbt.ticker)
    ensures r.Ok? <==>
      && BoundedCode.InRange(tbt.exchange_id, ExchangeType.LB, ExchangeType.UB)
      && BoundedCode.InRange(tbt.type_, TbtType.LB, TbtType.UB)
    ensures r.Err? ==> r.failure == RangeCheckFailed
    ensures r.Ok? ==> TickByTickMirrors(tbt, r.value, lossy)
  {
    var exchange_id :- ExchangeType.Lift(tbt.exchange_id);
    var ticker := CText.CArrayToString(tbt.ticker, lossy);
    var type_ :- TbtType.Lift(tbt.type_);
    Ok(XTPTickByTickStruct(exchange_id, ticker, tbt.seq_no, tbt.data_time, type_))
  }

  /** `FromRaw<XTPQSI>`: two text buffers and two categorical fields. */
  function QuoteStaticInfoFromRaw(qsi: XTPQSI, lossy: CText.Decoder): (r: Result<XTPQuoteStaticInfo>)
    requires CText.Terminated(qsi.ticker) && CText.Terminated(qsi.ticker_name)
    ensures r.Ok? <==>
      && BoundedCode.InRange(qsi.exchange_id, ExchangeType.LB, ExchangeType.UB)
      && BoundedCode.InRange(qsi.ticker_type, TickerType.LB, TickerType.UB)
    ensures r.Err? ==> r.failure == RangeCheckFailed
    ensures r.Ok? ==> QuoteStaticInfoMirrors(qsi, r.value, lossy)
  {
    var exchange_id :- ExchangeType.Lift(qsi.exchange_id);
    var ticker := CText.CArrayToString(qsi.ticker, lossy);
    var ticker_name := CText.CArrayToString(qsi.ticker_name, lossy);
    var ticker_type :- TickerType.Lift(qsi.ticker_type);
    Ok(XTPQuoteStaticInfo(
      exchange_id,
      ticker,
      ticker_name,
      ticker_type,
      qsi.pre_close_price,
      qsi.upper_limit_price,
      qsi.lower_limit_price,
      qsi.price_tick,
      qsi.buy_qty_unit,
      qsi.sell_qty_unit))
  }

  /** `FromRaw<XTPTPI>`. */
  function TickerPriceInfoFromRaw(tpi: XTPTPI, lossy: CText.Decoder): (r: Result<XTPTickerPriceInfo>)
    requires CText.Terminated(tpi.ticker)
    ensures r.Ok? <==> BoundedCode.InRange(tpi.exchange_id, ExchangeType.LB, ExchangeType.UB)
    ensures r.Err? ==> r.failure == RangeCheckFailed
    ensures r.Ok? ==> TickerPriceInfoMirrors(tpi, r.value, lossy)
  {
    var exchange_id :- ExchangeType.Lift(tpi.exchange_id);
    Ok(XTPTickerPriceInfo(exchange_id, CText.CArrayToString(tpi.ticker, lossy), tpi.last_price))
  }

  // ---------------------------------------------------------------------------
  // Each mirror relation pins the result down: an owned record that mirrors a
  // foreign one is exactly what the conversion returns.

  lemma RspInfoMirrorIsResult(raw: XTPRI, o: XTPRspInfoStruct, lossy: CText.Decoder)
    requires CText.Terminated(raw.error_msg)
    requires RspInfoMirrors(raw, o, lossy)
    ensures RspInfoFromRaw(raw, lossy) == o
  {
  }

  lemma SpecificTickerMirrorIsResult(raw: XTPST, o: XTPSpecificTickerStruct, lossy: CText.Decoder)
    requires CText.Terminated(raw.ticker)
    requires SpecificTickerMirrors(raw, o, lossy)
    ensures SpecificTickerFromRaw(raw, lossy) == Ok(o)
  {
    ExchangeType.LiftLower(o.exchange_id);
  }

  lemma OrderBookMirrorIsResult(ob: XTPOB, o: OrderBookStruct, lossy: CText.Decoder)
    requires CText.Terminated(ob.ticker)
    requires OrderBookMirrors(ob, o, lossy)
    ensures OrderBookFromRaw(ob, lossy) == Ok(o)
  {
    ExchangeType.LiftLower(o.exchange_id);
    assert o.bid == ob.bid && o.ask == ob.ask;
    assert o.bid_qty == ob.bid_qty && o.ask_qty == ob.ask_qty;
  }

  lemma TickByTickMirrorIsResult(tbt: XTPTBT, o: XTPTickByTickStruct, lossy: CText.Decoder)
    requires CText.Terminated(tbt.ticker)
    requires TickByTickMirrors(tbt, o, lossy)
    ensures TickByTickFromRaw(tbt, lossy) == Ok(o)
  {
    ExchangeType.LiftLower(o.exchange_id);
    TbtType.LiftLower(o.type_);
  }

  lemma QuoteStaticInfoMirrorIsResult(qsi: XTPQSI, o: XTPQuoteStaticInfo, lossy: CText.Decoder)
    requires CText.Terminated(qsi.ticker) && CText.Terminated(qsi.ticker_name)
    requires QuoteStaticInfoMirrors(qsi, o, lossy)
    ensures QuoteStaticInfoFromRaw(qsi, lossy) == Ok(o)
  {
    ExchangeType.LiftLower(o.exchange_id);
    TickerType.LiftLower(o.ticker_type);
  }

  lemma TickerPriceInfoMirrorIsResult(tpi: XTPTPI, o: XTPTickerPriceInfo, lossy: CText.Decoder)
    requires CText.Terminated(tpi.ticker)
    requires TickerPriceInfoMirrors(tpi, o, lossy)
    ensures TickerPriceInfoFromRaw(tpi, lossy) == Ok(o)
  {
    ExchangeType.LiftLower(o.exchange_id);
  }

  // ---------------------------------------------------------------------------
  // Bytes after a buffer's first NUL never reach the owned record.

  lemma RspInfoIgnoresBytesAfterNul(a: XTPRI, b: XTPRI, lossy: CText.Decoder)
    requires CText.Terminated(a.error_msg)
    requires b.error_id == a.error_id
    requires a.error_msg[..CText.FirstNul(a.error_msg) + 1] <= b.error_msg
    ensures CText.Terminated(b.error_msg)
    ensures RspInfoFromRaw(b, lossy) == RspInfoFromRaw(a, lossy)
  {
    CText.DecodeIgnoresBytesAfterNul(a.error_msg, b.error_msg, lossy);
  }

  lemma OrderBookIgnoresBytesAfterNul(a: XTPOB, b: XTPOB, lossy: CText.Decoder)
    requires CText.Terminated(a.ticker)
    requires b == a.(ticker := b.ticker)
    requires a.ticker[..CText.FirstNul(a.ticker) + 1] <= b.ticker
    ensures CText.Terminated(b.ticker)
    ensures OrderBookFromRaw(b, lossy) == OrderBookFromRaw(a, lossy)
  {
    CText.DecodeIgnoresBytesAfterNul(a.ticker, b.ticker, lossy);
  }

  lemma QuoteStaticInfoIgnoresBytesAfterNul(a: XTPQSI, b: XTPQSI, lossy: CText.Decoder)
    requires CText.Terminated(a.ticker) && CText.Terminated(a.ticker_name)
    requires b == a.(ticker := b.ticker, ticker_name := b.ticker_name)
    requires a.ticker[..CText.FirstNul(a.ticker) + 1] <= b.ticker
    requires a.ticker_name[..CText.FirstNul(a.ticker_name) + 1] <= b.ticker_name
    ensures CText.Terminated(b.ticker) && CText.Terminated(b.ticker_name)
    ensures QuoteStaticInfoFromRaw(b, lossy) == QuoteStaticInfoFromRaw(a, lossy)
  {
    CText.DecodeIgnoresBytesAfterNul(a.ticker, b.ticker, lossy);
    CText.DecodeIgnoresBytesAfterNul(a.ticker_name, b.ticker_name, lossy);
  }
}
