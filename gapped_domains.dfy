/** The two coded domains whose variant count does not match their bounds.
    Their discriminants follow the constants of the XTP native headers
    (xtp_api_data_type.h), which are not part of this model. */

/** XTPSideType, converted from the 8-bit XTP_SIDE_TYPE with bounds [1, 30]:
    seventeen variants against thirty codes in range. */
module SideType {
  import opened Wrappers
  import opened FfiTypes
  import BoundedCode

  datatype XTPSideType =
    | Buy | Sell | Purchase | Redemption | Split | Merge | Cover | Freeze
    | MarginTrade | ShortSell | RepayMargin | RepayStock | StockRepayStock
    | SurstkTrans | GrtstkTransin | GrtstkTransout | Unknown

  const LB: int := 1
  const UB: int := 30

  /** The discriminants of the variants, in declaration order. */
  const Discriminants: seq<int> := [1, 2, 7, 8, 9, 10, 11, 12, 21, 22, 23, 24, 26, 27, 28, 29, 30]

  /** The codes in [LB, UB] that no variant carries. */
  const UnassignedCodes: set<int> := {3, 4, 5, 6, 13, 14, 15, 16, 17, 18, 19, 20, 25}

  /** `into`: the discriminant of a variant. */
  function Lower(v: XTPSideType): (c: u8)
    ensures LB <= c <= UB
    ensures c !in UnassignedCodes
  {
    match v
    case Buy => 1
    case Sell => 2
    case Purchase => 7
    case Redemption => 8
    case Split => 9
    case Merge => 10
    case Cover => 11
    case Freeze => 12
    case MarginTrade => 21
    case ShortSell => 22
    case RepayMargin => 23
    case RepayStock => 24
    case StockRepayStock => 26
    case SurstkTrans => 27
    case GrtstkTransin => 28
    case GrtstkTransout => 29
    case Unknown => 30
  }

  /** The variant carrying discriminant `c`, if any. */
  function VariantOf(c: int): (r: Option<XTPSideType>)
    ensures r.Some? ==> Lower(r.value) == c
    ensures r.None? && LB <= c <= UB ==> c in UnassignedCodes
  {
    match c
    case 1 => Some(Buy)
    case 2 => Some(Sell)
    case 7 => Some(Purchase)
    case 8 => Some(Redemption)
    case 9 => Some(Split)
    case 10 => Some(Merge)
    case 11 => Some(Cover)
    case 12 => Some(Freeze)
    case 21 => Some(MarginTrade)
    case 22 => Some(ShortSell)
    case 23 => Some(RepayMargin)
    case 24 => Some(RepayStock)
    case 26 => Some(StockRepayStock)
    case 27 => Some(SurstkTrans)
    case 28 => Some(GrtstkTransin)
    case 29 => Some(GrtstkTransout)
    case 30 => Some(Unknown)
    case _ => None
  }

  /** `try_from` as written: the range check admits every code in [LB, UB],
      including the unassigned ones, for which the source's `transmute`
      manufactures a value of no variant (NoSuchVariant). */
  function Lift(c: u8): (r: Result<XTPSideType>)
    ensures r != Err(RangeCheckFailed) <==> LB <= c <= UB
    ensures r == Err(NoSuchVariant) <==> c in UnassignedCodes
    ensures r.Ok? ==> Lower(r.value) == c
  {
    BoundedCode.TryFrom(c, LB, UB, VariantOf)
  }

  /** Every variant survives `into` followed by `try_from`. */
  lemma LiftLower(v: XTPSideType)
    ensures Lift(Lower(v)) == Ok(v)
  {
  }

  /** Code 3 passes the range check although no variant carries it. */
  lemma RangeAdmitsUnassignedCode()
    ensures LB <= 3 <= UB && Lift(3) == Err(NoSuchVariant)
  {
  }

  /** Discriminants lists exactly the codes that have a variant. */
  lemma DiscriminantsAreTheCodes(v: XTPSideType, c: int)
    ensures Lower(v) in Discriminants
    ensures c in Discriminants <==> VariantOf(c).Some?
  {
  }

  /** Seventeen distinct discriminants against thirty admitted codes: the gap
      above is forced by counting alone, whatever the discriminants' values. */
  lemma CountingForcesAGap()
    ensures |Discriminants| == 17 && UB - LB + 1 == 30
    ensures BoundedCode.Distinct(Discriminants)
    ensures exists c :: BoundedCode.InRange(c, LB, UB) && c !in Discriminants
  {
    BoundedCode.IncreasingIsDistinct(Discriminants);
    BoundedCode.CodeWithoutVariant(Discriminants, LB, UB);
  }

  /** `try_from` as evidently intended: accept exactly the discriminants of
      the variants and reject every other code, never reaching a value of no
      variant. */
  function LiftChecked(c: u8): (r: Result<XTPSideType>)
    ensures r.Ok? <==> exists v :: Lower(v) == c
    ensures r.Err? ==> r.failure == RangeCheckFailed
    ensures r.Ok? ==> Lower(r.value) == c
  {
    match BoundedCode.TryFrom(c, LB, UB, VariantOf)
    case Ok(v) => Ok(v)
    case Err(_) => Err(RangeCheckFailed)
  }

  /** The checked lift round-trips every variant and agrees with the written
      one wherever the latter yields a real variant. */
  lemma LiftCheckedLower(v: XTPSideType, c: u8)
    ensures LiftChecked(Lower(v)) == Ok(v)
    ensures Lift(c).Ok? ==> LiftChecked(c) == Lift(c)
  {
  }
}

/** XTPPositionEffectType, converted from the 8-bit XTP_POSITION_EFFECT_TYPE
    with bounds [1, 12]: thirteen variants, among them Init with code 0. */
module PositionEffectType {
  import opened Wrappers
  import opened FfiTypes
  import BoundedCode

  datatype XTPPositionEffectType =
    | Init | Open | Close | ForceClose | CloseToday | CloseYesterday | ForceOff
    | LocalForceClose | CreditForceCover | CreditForceClear | CreditForceDebt
    | CreditForceUncond | Unknown

  const LB: int := 1
  const UB: int := 12

  /** The discriminants of the variants, in declaration order. */
  const Discriminants: seq<int> := [0, 1, 2, 3, 4, 5, 6, 7, 8, 9, 10, 11, 12]

  /** `into`: the discriminant of a variant; only Init falls below LB. */
  function Lower(v: XTPPositionEffectType): (c: u8)
    ensures c <= UB
    ensures c < LB <==> v == Init
  {
    match v
    case Init => 0
    case Open => 1
    case Close => 2
    case ForceClose => 3
    case CloseToday => 4
    case CloseYesterday => 5
    case ForceOff => 6
    case LocalForceClose => 7
    case CreditForceCover => 8
    case CreditForceClear => 9
    case CreditForceDebt => 10
    case CreditForceUncond => 11
    case Unknown => 12
  }

  /** The variant carrying discriminant `c`, if any. */
  function VariantOf(c: int): (r: Option<XTPPositionEffectType>)
    ensures r.Some? ==> Lower(r.value) == c
    ensures r.Some? <==> 0 <= c <= UB
  {
    match c
    case 0 => Some(Init)
    case 1 => Some(Open)
    case 2 => Some(Close)
    case 3 => Some(ForceClose)
    case 4 => Some(CloseToday)
    case 5 => Some(CloseYesterday)
    case 6 => Some(ForceOff)
    case 7 => Some(LocalForceClose)
    case 8 => Some(CreditForceCover)
    case 9 => Some(CreditForceClear)
    case 10 => Some(CreditForceDebt)
    case 11 => Some(CreditForceUncond)
    case 12 => Some(Unknown)
    case _ => None
  }

  /** `try_from` as written: accepts exactly [1, 12]. */
  function Lift(c: u8): (r: Result<XTPPositionEffectType>)
    ensures r.Ok? <==> LB <= c <= UB
    ensures r.Err? ==> r.failure == RangeCheckFailed
    ensures r.Ok? ==> Lower(r.value) == c && r.value != Init
  {
    BoundedCode.TryFrom(c, LB, UB, VariantOf)
  }

  /** Every variant except Init survives `into` followed by `try_from`. */
  lemma LiftLower(v: XTPPositionEffectType)
    ensures Lift(Lower(v)) == Ok(v) <==> v != Init
  {
  }

  /** Init lowers to 0, which `try_from` then rejects. */
  lemma InitDoesNotRoundTrip()
    ensures Lower(Init) == 0 && Lift(Lower(Init)) == Err(RangeCheckFailed)
  {
  }

  /** Discriminants lists exactly the codes that have a variant. */
  lemma DiscriminantsAreTheCodes(v: XTPPositionEffectType, c: int)
    ensures Lower(v) in Discriminants
    ensures c in Discriminants <==> VariantOf(c).Some?
  {
  }

  /** Thirteen distinct discriminants cannot all fit in twelve codes, so some
      variant fails the round trip whatever the discriminants' values. */
  lemma CountingForcesARejectedVariant()
    ensures |Discriminants| == 13 && UB - LB + 1 == 12
    ensures BoundedCode.Distinct(Discriminants)
    ensures exists i :: 0 <= i < |Discriminants| && !BoundedCode.InRange(Discriminants[i], LB, UB)
  {
    BoundedCode.IncreasingIsDistinct(Discriminants);
    BoundedCode.VariantOutsideRange(Discriminants, LB, UB);
  }

  /** `try_from` with the lower bound evidently intended, 0, so that the
      range covers every variant including Init. */
  function LiftIncludingInit(c: u8): (r: Result<XTPPositionEffectType>)
    ensures r.Ok? <==> c <= UB
    ensures r.Err? ==> r.failure == RangeCheckFailed
    ensures r.Ok? ==> Lower(r.value) == c
  {
    BoundedCode.TryFrom(c, 0, UB, VariantOf)
  }

  /** With that bound every variant round-trips, Init included. */
  lemma LiftIncludingInitLower(v: XTPPositionEffectType)
    ensures LiftIncludingInit(Lower(v)) == Ok(v)
  {
  }
}
