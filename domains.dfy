/** The contiguous coded domains: for each, the variant count equals
    UB - LB + 1, and the discriminants are taken to be LB..UB in declaration
    order (the native constants themselves are not part of this model). */

/** XTPLogLevel, converted from XTP_LOG_LEVEL with bounds [0, 5]. */
module LogLevel {
  import opened Wrappers
  import opened FfiTypes
  import BoundedCode

  datatype XTPLogLevel = Fatal | Error | Warning | Info | Debug | Trace

  // The two-argument form of the macro: the lower bound defaults to 0.
  const LB: int := 0
  const UB: int := 5

  /** `into`: the discriminant of a variant. */
  function Lower(v: XTPLogLevel): (c: u32)
    ensures LB <= c <= UB
  {
    match v
    case Fatal => 0
    case Error => 1
    case Warning => 2
    case Info => 3
    case Debug => 4
    case Trace => 5
  }

  /** The variant carrying discriminant `c`, if any. */
  function VariantOf(c: int): (r: Option<XTPLogLevel>)
    ensures r.Some? ==> Lower(r.value) == c
  {
    match c
    case 0 => Some(Fatal)
    case 1 => Some(Error)
    case 2 => Some(Warning)
    case 3 => Some(Info)
    case 4 => Some(Debug)
    case 5 => Some(Trace)
    case _ => None
  }

  /** `try_from`: accepts exactly the codes in [LB, UB] and returns the
      variant whose discriminant is the code. */
  function Lift(c: u32): (r: Result<XTPLogLevel>)
    ensures r.Ok? <==> LB <= c <= UB
    ensures r.Err? ==> r.failure == RangeCheckFailed
    ensures r.Ok? ==> Lower(r.value) == c
  {
    BoundedCode.TryFrom(c, LB, UB, VariantOf)
  }

  /** Every variant survives `into` followed by `try_from`. */
  lemma LiftLower(v: XTPLogLevel)
    ensures Lift(Lower(v)) == Ok(v)
  {
  }
}

/** XTPProtocolType, converted from XTP_PROTOCOL_TYPE with bounds [1, 2]. */
module ProtocolType {
  import opened Wrappers
  import opened FfiTypes
  import BoundedCode

  datatype XTPProtocolType = TCP | UDP

  const LB: int := 1
  const UB: int := 2

  /** `into`: the discriminant of a variant. */
  function Lower(v: XTPProtocolType): (c: u32)
    ensures LB <= c <= UB
  {
    match v
    case TCP => 1
    case UDP => 2
  }

  /** The variant carrying discriminant `c`, if any. */
  function VariantOf(c: int): (r: Option<XTPProtocolType>)
    ensures r.Some? ==> Lower(r.value) == c
  {
    match c
    case 1 => Some(TCP)
    case 2 => Some(UDP)
    case _ => None
  }

  /** `try_from`: accepts exactly the codes in [LB, UB] and returns the
      variant whose discriminant is the code. */
  function Lift(c: u32): (r: Result<XTPProtocolType>)
    ensures r.Ok? <==> LB <= c <= UB
    ensures r.Err? ==> r.failure == RangeCheckFailed
    ensures r.Ok? ==> Lower(r.value) == c
  {
    BoundedCode.TryFrom(c, LB, UB, VariantOf)
  }

  /** Every variant survives `into` followed by `try_from`. */
  lemma LiftLower(v: XTPProtocolType)
    ensures Lift(Lower(v)) == Ok(v)
  {
  }
}

/** XTPExchangeType, converted from XTP_EXCHANGE_TYPE with bounds [1, 3]. */
module ExchangeType {
  import opened Wrappers
  import opened FfiTypes
  import BoundedCode

  datatype XTPExchangeType = SH | SZ | Unknown

  const LB: int := 1
  const UB: int := 3

  /** `into`: the discriminant of a variant. */
  function Lower(v: XTPExchangeType): (c: u32)
    ensures LB <= c <= UB
  {
    match v
    case SH => 1
    case SZ => 2
    case Unknown => 3
  }

  /** The variant carrying discriminant `c`, if any. */
  function VariantOf(c: int): (r: Option<XTPExchangeType>)
    ensures r.Some? ==> Lower(r.value) == c
  {
    match c
    case 1 => Some(SH)
    case 2 => Some(SZ)
    case 3 => Some(Unknown)
    case _ => None
  }

  /** `try_from`: accepts exactly the codes in [LB, UB] and returns the
      variant whose discriminant is the code. */
  function Lift(c: u32): (r: Result<XTPExchangeType>)
    ensures r.Ok? <==> LB <= c <= UB
    ensures r.Err? ==> r.failure == RangeCheckFailed
    ensures r.Ok? ==> Lower(r.value) == c
  {
    BoundedCode.TryFrom(c, LB, UB, VariantOf)
  }

  /** Every variant survives `into` followed by `try_from`. */
  lemma LiftLower(v: XTPExchangeType)
    ensures Lift(Lower(v)) == Ok(v)
  {
  }
}

/** XTPMarketType, converted from XTP_MARKET_TYPE with bounds [0, 3]. */
module MarketType {
  import opened Wrappers
  import opened FfiTypes
  import BoundedCode

  datatype XTPMarketType = MarketInit | SZA | SHA | UNKNOWN

  const LB: int := 0
  const UB: int := 3

  /** `into`: the discriminant of a variant. */
  function Lower(v: XTPMarketType): (c: u32)
    ensures LB <= c <= UB
  {
    match v
    case MarketInit => 0
    case SZA => 1
    case SHA => 2
    case UNKNOWN => 3
  }

  /** The variant carrying discriminant `c`, if any. */
  function VariantOf(c: int): (r: Option<XTPMarketType>)
    ensures r.Some? ==> Lower(r.value) == c
  {
    match c
    case 0 => Some(MarketInit)
    case 1 => Some(SZA)
    case 2 => Some(SHA)
    case 3 => Some(UNKNOWN)
    case _ => None
  }

  /** `try_from`: accepts exactly the codes in [LB, UB] and returns the
      variant whose discriminant is the code. */
  function Lift(c: u32): (r: Result<XTPMarketType>)
    ensures r.Ok? <==> LB <= c <= UB
    ensures r.Err? ==> r.failure == RangeCheckFailed
    ensures r.Ok? ==> Lower(r.value) == c
  {
    BoundedCode.TryFrom(c, LB, UB, VariantOf)
  }

  /** Every variant survives `into` followed by `try_from`. */
  lemma LiftLower(v: XTPMarketType)
    ensures Lift(Lower(v)) == Ok(v)
  {
  }
}

/** XTPPriceType, converted from XTP_PRICE_TYPE with bounds [1, 9]. */
module PriceType {
  import opened Wrappers
  import opened FfiTypes
  import BoundedCode

  datatype XTPPriceType = Limit | BestOrCancel | BestsOrLimit | BestsOrCancel | AllOrCancel | ForwardBest | ReverseBestLimit | LimitOrCancel | TypeUnknown

  const LB: int := 1
  const UB: int := 9

  /** `into`: the discriminant of a variant. */
  function Lower(v: XTPPriceType): (c: u32)
    ensures LB <= c <= UB
  {
    match v
    case Limit => 1
    case BestOrCancel => 2
    case BestsOrLimit => 3
    case BestsOrCancel => 4
    case AllOrCancel => 5
    case ForwardBest => 6
    case ReverseBestLimit => 7
    case LimitOrCancel => 8
    case TypeUnknown => 9
  }

  /** The variant carrying discriminant `c`, if any. */
  function VariantOf(c: int): (r: Option<XTPPriceType>)
    ensures r.Some? ==> Lower(r.value) == c
  {
    match c
    case 1 => Some(Limit)
    case 2 => Some(BestOrCancel)
    case 3 => Some(BestsOrLimit)
    case 4 => Some(BestsOrCancel)
    case 5 => Some(AllOrCancel)
    case 6 => Some(ForwardBest)
    case 7 => Some(ReverseBestLimit)
    case 8 => Some(LimitOrCancel)
    case 9 => Some(TypeUnknown)
    case _ => None
  }

  /** `try_from`: accepts exactly the codes in [LB, UB] and returns the
      variant whose discriminant is the code. */
  function Lift(c: u32): (r: Result<XTPPriceType>)
    ensures r.Ok? <==> LB <= c <= UB
    ensures r.Err? ==> r.failure == RangeCheckFailed
    ensures r.Ok? ==> Lower(r.value) == c
  {
    BoundedCode.TryFrom(c, LB, UB, VariantOf)
  }

  /** Every variant survives `into` followed by `try_from`. */
  lemma LiftLower(v: XTPPriceType)
    ensures Lift(Lower(v)) == Ok(v)
  {
  }
}

/** XTPOrderActionStatusType, converted from XTP_ORDER_ACTION_STATUS_TYPE with bounds [1, 3]. */
module OrderActionStatusType {
  import opened Wrappers
  import opened FfiTypes
  import BoundedCode

  datatype XTPOrderActionStatusType = Submitted | Accepted | Rejected

  const LB: int := 1
  const UB: int := 3

  /** `into`: the discriminant of a variant. */
  function Lower(v: XTPOrderActionStatusType): (c: u32)
    ensures LB <= c <= UB
  {
    match v
    case Submitted => 1
    case Accepted => 2
    case Rejected => 3
  }

  /** The variant carrying discriminant `c`, if any. */
  function VariantOf(c: int): (r: Option<XTPOrderActionStatusType>)
    ensures r.Some? ==> Lower(r.value) == c
  {
    match c
    case 1 => Some(Submitted)
    case 2 => Some(Accepted)
    case 3 => Some(Rejected)
    case _ => None
  }

  /** `try_from`: accepts exactly the codes in [LB, UB] and returns the
      variant whose discriminant is the code. */
  function Lift(c: u32): (r: Result<XTPOrderActionStatusType>)
    ensures r.Ok? <==> LB <= c <= UB
    ensures r.Err? ==> r.failure == RangeCheckFailed
    ensures r.Ok? ==> Lower(r.value) == c
  {
    BoundedCode.TryFrom(c, LB, UB, VariantOf)
  }

  /** Every variant survives `into` followed by `try_from`. */
  lemma LiftLower(v: XTPOrderActionStatusType)
    ensures Lift(Lower(v)) == Ok(v)
  {
  }
}

/** XTPOrderStatusType, converted from XTP_ORDER_STATUS_TYPE with bounds [0, 7]. */
module OrderStatusType {
  import opened Wrappers
  import opened FfiTypes
  import BoundedCode

  datatype XTPOrderStatusType = Init | AllTraded | PartTradedQueueing | PartTradedNotQueueing | NoTradeQueueing | Canceled | Rejected | Unknown

  const LB: int := 0
  const UB: int := 7

  /** `into`: the discriminant of a variant. */
  function Lower(v: XTPOrderStatusType): (c: u32)
    ensures LB <= c <= UB
  {
    match v
    case Init => 0
    case AllTraded => 1
    case PartTradedQueueing => 2
    case PartTradedNotQueueing => 3
    case NoTradeQueueing => 4
    case Canceled => 5
    case Rejected => 6
    case Unknown => 7
  }

  /** The variant carrying discriminant `c`, if any. */
  function VariantOf(c: int): (r: Option<XTPOrderStatusType>)
    ensures r.Some? ==> Lower(r.value) == c
  {
    match c
    case 0 => Some(Init)
    case 1 => Some(AllTraded)
    case 2 => Some(PartTradedQueueing)
    case 3 => Some(PartTradedNotQueueing)
    case 4 => Some(NoTradeQueueing)
    case 5 => Some(Canceled)
    case 6 => Some(Rejected)
    case 7 => Some(Unknown)
    case _ => None
  }

  /** `try_from`: accepts exactly the codes in [LB, UB] and returns the
      variant whose discriminant is the code. */
  function Lift(c: u32): (r: Result<XTPOrderStatusType>)
    ensures r.Ok? <==> LB <= c <= UB
    ensures r.Err? ==> r.failure == RangeCheckFailed
    ensures r.Ok? ==> Lower(r.value) == c
  {
    BoundedCode.TryFrom(c, LB, UB, VariantOf)
  }

  /** Every variant survives `into` followed by `try_from`. */
  lemma LiftLower(v: XTPOrderStatusType)
    ensures Lift(Lower(v)) == Ok(v)
  {
  }
}

/** XTPOrderSubmitStatusType, converted from XTP_ORDER_SUBMIT_STATUS_TYPE with bounds [1, 6]. */
module OrderSubmitStatusType {
  import opened Wrappers
  import opened FfiTypes
  import BoundedCode

  datatype XTPOrderSubmitStatusType = InsertSubmitted | InsertAccepted | InsertRejected | CancelSubmitted | CancelRejected | CancelAccepted

  const LB: int := 1
  const UB: int := 6

  /** `into`: the discriminant of a variant. */
  function Lower(v: XTPOrderSubmitStatusType): (c: u32)
    ensures LB <= c <= UB
  {
    match v
    case InsertSubmitted => 1
    case InsertAccepted => 2
    case InsertRejected => 3
    case CancelSubmitted => 4
    case CancelRejected => 5
    case CancelAccepted => 6
  }

  /** The variant carrying discriminant `c`, if any. */
  function VariantOf(c: int): (r: Option<XTPOrderSubmitStatusType>)
    ensures r.Some? ==> Lower(r.value) == c
  {
    match c
    case 1 => Some(InsertSubmitted)
    case 2 => Some(InsertAccepted)
    case 3 => Some(InsertRejected)
    case 4 => Some(CancelSubmitted)
    case 5 => Some(CancelRejected)
    case 6 => Some(CancelAccepted)
    case _ => None
  }

  /** `try_from`: accepts exactly the codes in [LB, UB] and returns the
      variant whose discriminant is the code. */
  function Lift(c: u32): (r: Result<XTPOrderSubmitStatusType>)
    ensures r.Ok? <==> LB <= c <= UB
    ensures r.Err? ==> r.failure == RangeCheckFailed
    ensures r.Ok? ==> Lower(r.value) == c
  {
    BoundedCode.TryFrom(c, LB, UB, VariantOf)
  }

  /** Every variant survives `into` followed by `try_from`. */
  lemma LiftLower(v: XTPOrderSubmitStatusType)
    ensures Lift(Lower(v)) == Ok(v)
  {
  }
}

/** XTPTeResumeType, converted from XTP_TE_RESUME_TYPE with bounds [0, 2]. */
module TeResumeType {
  import opened Wrappers
  import opened FfiTypes
  import BoundedCode

  datatype XTPTeResumeType = Restart | Resume | Quick

  const LB: int := 0
  const UB: int := 2

  /** `into`: the discriminant of a variant. */
  function Lower(v: XTPTeResumeType): (c: u32)
    ensures LB <= c <= UB
  {
    match v
    case Restart => 0
    case Resume => 1
    case Quick => 2
  }

  /** The variant carrying discriminant `c`, if any. */
  function VariantOf(c: int): (r: Option<XTPTeResumeType>)
    ensures r.Some? ==> Lower(r.value) == c
  {
    match c
    case 0 => Some(Restart)
    case 1 => Some(Resume)
    case 2 => Some(Quick)
    case _ => None
  }

  /** `try_from`: accepts exactly the codes in [LB, UB] and returns the
      variant whose discriminant is the code. */
  function Lift(c: u32): (r: Result<XTPTeResumeType>)
    ensures r.Ok? <==> LB <= c <= UB
    ensures r.Err? ==> r.failure == RangeCheckFailed
    ensures r.Ok? ==> Lower(r.value) == c
  {
    BoundedCode.TryFrom(c, LB, UB, VariantOf)
  }

  /** Every variant survives `into` followed by `try_from`. */
  lemma LiftLower(v: XTPTeResumeType)
    ensures Lift(Lower(v)) == Ok(v)
  {
  }
}

/** XTPTickerType, converted from XTP_TICKER_TYPE with bounds [0, 6]. */
module TickerType {
  import opened Wrappers
  import opened FfiTypes
  import BoundedCode

  datatype XTPTickerType = Stock | Index | Fund | Bond | Option | TechStock | Unknown

  const LB: int := 0
  const UB: int := 6

  /** `into`: the discriminant of a variant. */
  function Lower(v: XTPTickerType): (c: u32)
    ensures LB <= c <= UB
  {
    match v
    case Stock => 0
    case Index => 1
    case Fund => 2
    case Bond => 3
    case Option => 4
    case TechStock => 5
    case Unknown => 6
  }

  /** The variant carrying discriminant `c`, if any. */
  function VariantOf(c: int): (r: Option<XTPTickerType>)
    ensures r.Some? ==> Lower(r.value) == c
  {
    match c
    case 0 => Some(Stock)
    case 1 => Some(Index)
    case 2 => Some(Fund)
    case 3 => Some(Bond)
    case 4 => Some(Option)
    case 5 => Some(TechStock)
    case 6 => Some(Unknown)
    case _ => None
  }

  /** `try_from`: accepts exactly the codes in [LB, UB] and returns the
      variant whose discriminant is the code. */
  function Lift(c: u32): (r: Result<XTPTickerType>)
    ensures r.Ok? <==> LB <= c <= UB
    ensures r.Err? ==> r.failure == RangeCheckFailed
    ensures r.Ok? ==> Lower(r.value) == c
  {
    BoundedCode.TryFrom(c, LB, UB, VariantOf)
  }

  /** Every variant survives `into` followed by `try_from`. */
  lemma LiftLower(v: XTPTickerType)
    ensures Lift(Lower(v)) == Ok(v)
  {
  }
}

/** XTPTbtType, converted from XTP_TBT_TYPE with bounds [1, 2]. */
module TbtType {
  import opened Wrappers
  import opened FfiTypes
  import BoundedCode

  datatype XTPTbtType = ENTRUST | TRADE

  const LB: int := 1
  const UB: int := 2

  /** `into`: the discriminant of a variant. */
  function Lower(v: XTPTbtType): (c: u32)
    ensures LB <= c <= UB
  {
    match v
    case ENTRUST => 1
    case TRADE => 2
  }

  /** The variant carrying discriminant `c`, if any. */
  function VariantOf(c: int): (r: Option<XTPTbtType>)
    ensures r.Some? ==> Lower(r.value) == c
  {
    match c
    case 1 => Some(ENTRUST)
    case 2 => Some(TRADE)
    case _ => None
  }

  /** `try_from`: accepts exactly the codes in [LB, UB] and returns the
      variant whose discriminant is the code. */
  function Lift(c: u32): (r: Result<XTPTbtType>)
    ensures r.Ok? <==> LB <= c <= UB
    ensures r.Err? ==> r.failure == RangeCheckFailed
    ensures r.Ok? ==> Lower(r.value) == c
  {
    BoundedCode.TryFrom(c, LB, UB, VariantOf)
  }

  /** Every variant survives `into` followed by `try_from`. */
  lemma LiftLower(v: XTPTbtType)
    ensures Lift(Lower(v)) == Ok(v)
  {
  }
}
