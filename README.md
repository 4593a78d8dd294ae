# XTP boundary conversions, modelled in Dafny

This project models the conversion layer of the Rust bindings to the XTP
native trading and market-data SDK (`src/types.rs`). The layer lifts the
SDK's integer codes into Rust enums and lowers them back. It decodes
NUL-terminated `c_char` buffers into owned strings. It also builds owned
records from the SDK's foreign records. Every operation there is a single
expression with no state, so the model is made of datatypes, functions and
lemmas.

Files:

- `wrappers.dfy`: `Option`, `Result` and the two failure kinds.
  `RangeCheckFailed` is the `assert!` of `try_from` firing; the source panics
  there rather than returning `Err`. `NoSuchVariant` marks a code that passed
  the range check but that no variant carries; the source would then
  `transmute` it into an enum value that does not exist, which is undefined
  behaviour.
- `ffi_types.dfy`: the fixed-width integers, `f64` as its 64-bit pattern
  (prices are only ever copied), text buffers as byte sequences, and the
  ten-level price and quantity arrays.
- `bounded_code.dfy`: the `impl_ffi_convert!` mechanism as one generic
  function, `TryFrom`: range check first, then an exhaustive code table in
  place of `transmute`. It also holds counting lemmas that hold for any
  distinct discriminants.
- `domains.dfy`: the eleven domains whose variant count equals `ub - lb + 1`.
  Each module has `Lower` (`into`), `VariantOf` (the code table), `Lift`
  (`try_from`) and a round-trip lemma.
- `gapped_domains.dfy`: side and position effect. Their variant counts do not
  match their bounds, and the model shows this directly.
- `ctext.dfy`: `carray_to_string`, i.e. the NUL scan of `CStr::from_ptr`
  followed by lossy decoding. `CArrayToString` is `lossy(CStrBytes(buf))`.
  Its properties are stated by the lemmas listed below.
- `records.dfy`: the six `FromRaw` conversions. For each record a `...Mirrors`
  predicate says what it means for an owned record to be the image of a
  foreign one:
  - every copied field is equal;
  - every categorical field lowers back to the foreign code;
  - every text field is the decoded NUL-prefix of its buffer.

  Each conversion ensures that its result mirrors its input. A lemma proves
  the converse: any record that mirrors the input is the conversion's result.
- `scenarios.dfy`: concrete conversions.

Discriminants. The enum discriminants come from the SDK's constants, and
those constants are not part of this model. Where a domain's variant count
equals `ub - lb + 1`, the codes are taken to be `lb..ub` in declaration order.
For side and position effect, the discriminants are the values of the XTP
headers (`xtp_api_data_type.h`):

- side: 1, 2, 7-12, 21-24 and 26-30;
- position effect: 0-12, so `Init` has code 0.

The two gaps are also proved by counting alone (`CountingForcesAGap`,
`CountingForcesARejectedVariant`), so they do not depend on those values.

Facts about `src/types.rs` that shape the model:

- `try_from` panics at its `assert!` (and at `unwrap` in the record
  conversions) and never returns `Err`; the model returns a failure instead.
- There are six `FromRaw` conversions. Response info has no categorical
  field and is total.
- Thirteen domains are instantiated.
- Position effect `Init` and 13 in-range side codes do not round-trip (see
  Findings).

## Model

| member | source | states |
|---|---|---|
| BoundedCode.TryFrom | src/types.rs:13-32 | The `impl_ffi_convert!` lift: a code outside the inclusive `[lb, ub]` fails with RangeCheckFailed, and only such a code does; a code in range succeeds exactly when some variant carries it, and then yields that variant. |
| BoundedCode.VariantOutsideRange | src/types.rs:137-152 | Whatever their values, more distinct discriminants than codes in `[lb, ub]` means that some variant's code is rejected by the range check. |
| BoundedCode.CodeWithoutVariant | src/types.rs:113-133 | Whatever their values, fewer distinct discriminants than codes in `[lb, ub]` means that some code passes the range check without being any variant's code. |
| LogLevel.Lower | src/types.rs:36-43 | `into` yields the variant's discriminant, which always lies within the domain's bounds [0, 5]. |
| LogLevel.VariantOf | src/types.rs:36-43 | The code table that stands for `transmute`: whenever it returns a variant, that variant's discriminant is the code it was given. |
| LogLevel.Lift | src/types.rs:45 | `try_from` succeeds exactly for the codes in [0, 5]; the two-argument form of the macro (lines 29-31) gives the lower bound 0, so every code from 0 to 5 is accepted and 6 upward rejected; every other code fails at the range check; a successful result lowers back to the input code. |
| LogLevel.LiftLower | src/types.rs:36-43 | Every variant survives `into` followed by `try_from` unchanged. |
| ProtocolType.Lower | src/types.rs:49-54 | `into` yields the variant's discriminant, which always lies within the domain's bounds [1, 2]. |
| ProtocolType.VariantOf | src/types.rs:49-54 | The code table that stands for `transmute`: whenever it returns a variant, that variant's discriminant is the code it was given. |
| ProtocolType.Lift | src/types.rs:56 | `try_from` succeeds exactly for the codes in [1, 2]; every other code fails at the range check; a successful result lowers back to the input code. |
| ProtocolType.LiftLower | src/types.rs:49-54 | Every variant survives `into` followed by `try_from` unchanged. |
| ExchangeType.Lower | src/types.rs:60-67 | `into` yields the variant's discriminant, which always lies within the domain's bounds [1, 3]. |
| ExchangeType.VariantOf | src/types.rs:60-67 | The code table that stands for `transmute`: whenever it returns a variant, that variant's discriminant is the code it was given. |
| ExchangeType.Lift | src/types.rs:69 | `try_from` succeeds exactly for the codes in [1, 3]; every other code fails at the range check; a successful result lowers back to the input code. |
| ExchangeType.LiftLower | src/types.rs:60-67 | Every variant survives `into` followed by `try_from` unchanged. |
| MarketType.Lower | src/types.rs:73-82 | `into` yields the variant's discriminant, which always lies within the domain's bounds [0, 3]. |
| MarketType.VariantOf | src/types.rs:73-82 | The code table that stands for `transmute`: whenever it returns a variant, that variant's discriminant is the code it was given. |
| MarketType.Lift | src/types.rs:84 | `try_from` succeeds exactly for the codes in [0, 3]; every other code fails at the range check; a successful result lowers back to the input code. |
| MarketType.LiftLower | src/types.rs:73-82 | Every variant survives `into` followed by `try_from` unchanged. |
| PriceType.Lower | src/types.rs:88-107 | `into` yields the variant's discriminant, which always lies within the domain's bounds [1, 9]. |
| PriceType.VariantOf | src/types.rs:88-107 | The code table that stands for `transmute`: whenever it returns a variant, that variant's discriminant is the code it was given. |
| PriceType.Lift | src/types.rs:109 | `try_from` succeeds exactly for the codes in [1, 9]; every other code fails at the range check; a successful result lowers back to the input code. |
| PriceType.LiftLower | src/types.rs:88-107 | Every variant survives `into` followed by `try_from` unchanged. |
| OrderActionStatusType.Lower | src/types.rs:156-160 | `into` yields the variant's discriminant, which always lies within the domain's bounds [1, 3]. |
| OrderActionStatusType.VariantOf | src/types.rs:156-160 | The code table that stands for `transmute`: whenever it returns a variant, that variant's discriminant is the code it was given. |
| OrderActionStatusType.Lift | src/types.rs:161 | `try_from` succeeds exactly for the codes in [1, 3]; every other code fails at the range check; a successful result lowers back to the input code. |
| OrderActionStatusType.LiftLower | src/types.rs:156-160 | Every variant survives `into` followed by `try_from` unchanged. |
| OrderStatusType.Lower | src/types.rs:165-174 | `into` yields the variant's discriminant, which always lies within the domain's bounds [0, 7]. |
| OrderStatusType.VariantOf | src/types.rs:165-174 | The code table that stands for `transmute`: whenever it returns a variant, that variant's discriminant is the code it was given. |
| OrderStatusType.Lift | src/types.rs:175 | `try_from` succeeds exactly for the codes in [0, 7]; every other code fails at the range check; a successful result lowers back to the input code. |
| OrderStatusType.LiftLower | src/types.rs:165-174 | Every variant survives `into` followed by `try_from` unchanged. |
| OrderSubmitStatusType.Lower | src/types.rs:179-186 | `into` yields the variant's discriminant, which always lies within the domain's bounds [1, 6]. |
| OrderSubmitStatusType.VariantOf | src/types.rs:179-186 | The code table that stands for `transmute`: whenever it returns a variant, that variant's discriminant is the code it was given. |
| OrderSubmitStatusType.Lift | src/types.rs:187 | `try_from` succeeds exactly for the codes in [1, 6]; every other code fails at the range check; a successful result lowers back to the input code. |
| OrderSubmitStatusType.LiftLower | src/types.rs:179-186 | Every variant survives `into` followed by `try_from` unchanged. |
| TeResumeType.Lower | src/types.rs:191-198 | `into` yields the variant's discriminant, which always lies within the domain's bounds [0, 2]. |
| TeResumeType.VariantOf | src/types.rs:191-198 | The code table that stands for `transmute`: whenever it returns a variant, that variant's discriminant is the code it was given. |
| TeResumeType.Lift | src/types.rs:199 | `try_from` succeeds exactly for the codes in [0, 2]; every other code fails at the range check; a successful result lowers back to the input code. |
| TeResumeType.LiftLower | src/types.rs:191-198 | Every variant survives `into` followed by `try_from` unchanged. |
| TickerType.Lower | src/types.rs:224-239 | `into` yields the variant's discriminant, which always lies within the domain's bounds [0, 6]. |
| TickerType.VariantOf | src/types.rs:224-239 | The code table that stands for `transmute`: whenever it returns a variant, that variant's discriminant is the code it was given. |
| TickerType.Lift | src/types.rs:240 | `try_from` succeeds exactly for the codes in [0, 6]; every other code fails at the range check; a successful result lowers back to the input code. |
| TickerType.LiftLower | src/types.rs:224-239 | Every variant survives `into` followed by `try_from` unchanged. |
| TbtType.Lower | src/types.rs:329-334 | `into` yields the variant's discriminant, which always lies within the domain's bounds [1, 2]. |
| TbtType.VariantOf | src/types.rs:329-334 | The code table that stands for `transmute`: whenever it returns a variant, that variant's discriminant is the code it was given. |
| TbtType.Lift | src/types.rs:335 | `try_from` succeeds exactly for the codes in [1, 2]; every other code fails at the range check; a successful result lowers back to the input code. |
| TbtType.LiftLower | src/types.rs:329-334 | Every variant survives `into` followed by `try_from` unchanged. |
| SideType.Lower | src/types.rs:113-131 | `into` yields a discriminant in [1, 30] that is not one of the thirteen unassigned codes. |
| SideType.VariantOf | src/types.rs:113-131 | The code table: a returned variant carries the given code, and an in-range code with no variant is one of the unassigned codes. |
| SideType.Lift | src/types.rs:133 | `try_from` as written: the range check passes exactly for [1, 30]; it reaches a code with no variant (the source's invalid `transmute`) exactly for the unassigned codes; a success lowers back to the input. |
| SideType.LiftLower | src/types.rs:113-133 | Every side variant survives `into` followed by `try_from`. |
| SideType.RangeAdmitsUnassignedCode | src/types.rs:133 | Code 3 passes the [1, 30] check although no side variant carries it. |
| SideType.DiscriminantsAreTheCodes | src/types.rs:113-131 | The discriminant list holds exactly the codes that have a variant. |
| SideType.CountingForcesAGap | src/types.rs:113-133 | Seventeen distinct discriminants against thirty admitted codes: some admitted code has no variant, independently of the discriminants' values. |
| SideType.LiftChecked | src/types.rs:17-19 | The corrected lift: succeeds exactly for the discriminants of the variants, otherwise fails with RangeCheckFailed, never with NoSuchVariant. |
| SideType.LiftCheckedLower | src/types.rs:17-19 | The corrected lift round-trips every variant and agrees with the written lift wherever that one yields a variant. |
| PositionEffectType.Lower | src/types.rs:137-151 | `into` yields a discriminant that is at most 12, and below the lower bound 1 exactly for Init. |
| PositionEffectType.VariantOf | src/types.rs:137-151 | The code table: a returned variant carries the given code, and every code from 0 to 12 has a variant. |
| PositionEffectType.Lift | src/types.rs:152 | `try_from` succeeds exactly for [1, 12], otherwise fails at the range check; a success lowers back to the input and is never Init. |
| PositionEffectType.LiftLower | src/types.rs:137-152 | A variant survives `into` followed by `try_from` exactly when it is not Init. |
| PositionEffectType.InitDoesNotRoundTrip | src/types.rs:138-152 | Init lowers to 0, and `try_from` rejects 0 at the range check. |
| PositionEffectType.DiscriminantsAreTheCodes | src/types.rs:137-151 | The discriminant list holds exactly the codes that have a variant. |
| PositionEffectType.CountingForcesARejectedVariant | src/types.rs:137-152 | Thirteen distinct discriminants cannot fit in the twelve admitted codes: some variant is rejected, independently of the discriminants' values. |
| PositionEffectType.LiftIncludingInit | src/types.rs:152 | The corrected lift with lower bound 0: succeeds exactly for codes up to 12, and a success lowers back to the input. |
| PositionEffectType.LiftIncludingInitLower | src/types.rs:137-152 | Under the corrected lift every variant round-trips, Init included. |
| CText.FirstNul | src/types.rs:570-571 | The position `CStr::from_ptr` stops at: it holds a NUL, and no byte before it is NUL. |
| CText.CStrBytes | src/types.rs:570-571 | The bytes read are a prefix of the buffer, contain no NUL, and are followed in the buffer by a NUL. |
| CText.CArrayToString | src/types.rs:570-574 | Lossy decoding of the bytes before the first NUL; a buffer starting with NUL decodes as no bytes at all. See DecodeIgnoresBytesAfterNul and LeadingNulDecodesEmpty. |
| CText.CStrBytesUnique | src/types.rs:570-571 | Those three properties determine the bytes read: any NUL-free prefix followed by a NUL is exactly them. |
| CText.TerminatedTextReadsBack | src/types.rs:570-574 | Round trip: NUL-free text written into a buffer, then NUL, then any padding, reads back as that text. |
| CText.DecodeIgnoresBytesAfterNul | src/types.rs:570-574 | `carray_to_string` depends only on the bytes up to the first NUL: a buffer agreeing there decodes identically, whatever follows. |
| CText.LeadingNulDecodesEmpty | src/types.rs:570-574 | A buffer whose first byte is NUL yields no bytes, and so the empty string under a decoder that maps no bytes to the empty string. |
| Records.RspInfoFromRaw | src/types.rs:407-420 | Response info never fails: `error_id` is copied and `error_msg` is the decoding of the message buffer's NUL-prefix. |
| Records.SpecificTickerFromRaw | src/types.rs:428-443 | Succeeds exactly when the exchange code is in [1, 3], otherwise fails as a whole at the range check; on success the exchange lowers back to the foreign code and the ticker is the decoded NUL-prefix. |
| Records.OrderBookFromRaw | src/types.rs:460-476 | Succeeds exactly when the exchange code is in [1, 3], otherwise fails as a whole; on success the exchange lowers back to the foreign code, the ticker is the decoded NUL-prefix, and last price, quantity, turnover, trade count, data time and the four ten-level arrays element by element equal the foreign ones. |
| Records.TickByTickFromRaw | src/types.rs:487-497 | Succeeds exactly when both the exchange code is in [1, 3] and the tick-by-tick type is in [1, 2], otherwise fails as a whole; on success both categorical fields lower back, the ticker is decoded, and sequence number and data time are copied. |
| Records.QuoteStaticInfoFromRaw | src/types.rs:513-528 | Succeeds exactly when the exchange code is in [1, 3] and the ticker type in [0, 6], otherwise fails as a whole; on success both categorical fields lower back, ticker and ticker name are decoded, and prices and quantity units are copied. |
| Records.TickerPriceInfoFromRaw | src/types.rs:537-545 | Succeeds exactly when the exchange code is in [1, 3], otherwise fails as a whole; on success the exchange lowers back, the ticker is decoded and the last price copied. |
| Records.RspInfoMirrorIsResult | src/types.rs:407-420 | Any owned response info that copies the id and holds the decoded message is the conversion's result. |
| Records.SpecificTickerMirrorIsResult | src/types.rs:428-443 | Any owned ticker key whose exchange lowers to the foreign code and whose ticker is the decoded buffer is the conversion's result. |
| Records.OrderBookMirrorIsResult | src/types.rs:460-476 | Any owned order book that mirrors the foreign one field by field is the conversion's result. |
| Records.TickByTickMirrorIsResult | src/types.rs:487-497 | Any owned tick-by-tick record that mirrors the foreign one is the conversion's result. |
| Records.QuoteStaticInfoMirrorIsResult | src/types.rs:513-528 | Any owned static info that mirrors the foreign one is the conversion's result. |
| Records.TickerPriceInfoMirrorIsResult | src/types.rs:537-545 | Any owned price info that mirrors the foreign one is the conversion's result. |
| Records.RspInfoIgnoresBytesAfterNul | src/types.rs:414-417 | Response info is unchanged by any change to the message buffer after its first NUL. |
| Records.OrderBookIgnoresBytesAfterNul | src/types.rs:464 | The order-book conversion is unchanged by any change to the ticker buffer after its first NUL. |
| Records.QuoteStaticInfoIgnoresBytesAfterNul | src/types.rs:517-518 | The static-info conversion is unchanged by any change to either text buffer after its first NUL. |
| Scenarios.LogLevelBounds | src/types.rs:29-45 | Log level accepts codes 0 and 5 and rejects 6. |
| Scenarios.ExchangeCodes | src/types.rs:60-69 | Exchange code 1 lifts to Shanghai, which lowers to 1; code 7 is rejected. |
| Scenarios.ShenzhenOrderBook | src/types.rs:460-476 | An order book with exchange code 2 and ticker bytes "600000" then NULs converts to Shenzhen, the ticker decoded from exactly those six bytes, and the last price and bid levels copied. |
| Scenarios.NegativeErrorId | src/types.rs:407-420 | Error id -1 is copied; the message decodes from the three bytes before the NUL, the byte after it ignored. |
| Scenarios.TickByTickBadType | src/types.rs:487-497 | A tick-by-tick record with a valid exchange but type code 3 fails as a whole. |

## Left out

- Raw-pointer reads through `CStr::from_ptr`, and the bit-level `transmute`, are not modellable. They are replaced by sequence indexing and an exhaustive code table (`VariantOf`).
- The memory layout of the native records (`XTPRI`, `XTPST`, `XTPOB`, `XTPTBT`, `XTPQSI`, `XTPTPI`) is not modelled. Their datatypes carry only the fields the conversions read. Buffer capacities are not fixed: a buffer is any byte sequence that contains a NUL.
- `to_string_lossy` is a standard-library call. It is passed to every decoding as a parameter `lossy`, so how invalid UTF-8 is replaced is not modelled.
- `f64` arithmetic is not modelled. Prices are carried as 64-bit patterns and only copied.
- The contents of `XTPError` are not part of this model. Failures carry only their kind.
- The `FromRaw` trait (lines 397-399) is not modelled as a trait. Each `impl` is one function.
- The derived `Debug`, `Clone`, `Hash` and `PartialEq` impls are not modelled. Datatype equality stands in for `PartialEq`.
- The commented-out enums and structs (lines 201-392 and 547-568) are dead code and are not modelled.
- The widening `from as u32` in the range check is not modelled as a separate step. The model assumes the foreign code types are unsigned: `u32`, or `u8` for side and position effect. The `crate::sys` types are not part of this model; only the widths follow from `repr(u32)`/`repr(u8)` and the `transmute`. A signed code would still be rejected after `from as u32`, because a negative value wraps to a large one that fails the upper bound.
- CText.LeadingNulDecodesEmpty: the empty-string result needs the decoder to map no bytes to the empty string. This is a precondition on the `lossy` parameter, not something proved about `to_string_lossy`.

## Findings

| source | as written | input that shows it | evidently intended | confidence | as-written member | corrected member |
|---|---|---|---|---|---|---|
| src/types.rs:133 | side is range-checked against [1, 30], but only 17 of those 30 codes have a variant, and `try_from` then `transmute`s any code in range | code 3 passes the check and no variant carries it, so `transmute` builds an invalid `XTPSideType` | accept exactly the codes of the side variants and reject every other code | high; forced by counting whatever the constants; not executed | SideType.RangeAdmitsUnassignedCode | SideType.LiftChecked |
| src/types.rs:152 | position effect is range-checked against [1, 12], but its 13 variants include `Init`, whose `into` code is 0 | `try_from(Init.into())`, i.e. code 0, fails the `assert!` and panics | lower bound 0, so that every variant round-trips | medium; that some variant fails is forced by counting, that it is `Init` rests on the header value 0; not executed | PositionEffectType.InitDoesNotRoundTrip | PositionEffectType.LiftIncludingInit |
