/** Failure-compatible results. The constructors of `Error` are the error codes
    the four contracts return, plus `Trap` for a host panic: an aborted call
    (arithmetic outside i128, a transfer the token refuses, a venue that fails). */
module Results {
  datatype Error =
    | Trap
    // SwapBook
    | OrderNotFound | OrderNotOpen | OrderExpired | InsufficientOutput | InvalidAmount
    | FillExceedsRemaining | SameToken | OraclePriceNotSet | OracleSlippageExceeded
    | TimerNotExpired | OraclePriceStale | Overflow | SlippageTooHigh | BookFull
    | OrderNotExpired | ExcludedCounterparty | TooManyExclusions | FeeAboveCap
    | MatchWrongPair | MatchExceedsBudget | BelowMinimumOrder | ExpiryTooFar | MakerPairLimit
    // Router
    | VenueNotFound | InvalidRoute | RouteMismatch | PartnerFeeAboveCap | PathTooLong
    | InvalidPath | InvalidEstimate | SurplusShareAboveCap
    // TwapBook
    | OrderNotActive | InvalidSchedule | InvalidPricing | InvalidParams
    | SliceTooEarly | AheadOfSchedule | SliceExceedsCap
    // RfqSettle
    | SameParty | QuoteExpired | AlreadyUsed | NavBandTooWide | NavBandExceeded
    | OracleUnavailable | OracleStale

  datatype Result<+T> = Ok(value: T) | Err(error: Error) {
    predicate IsFailure() {
      Err?
    }

    function PropagateFailure<U>(): Result<U>
      requires Err?
    {
      Err(error)
    }

    function Extract(): T
      requires Ok?
    {
      value
    }
  }

  datatype Outcome = Pass | Fail(error: Error) {
    predicate IsFailure() {
      Fail?
    }

    function PropagateFailure<U>(): Result<U>
      requires Fail?
    {
      Err(error)
    }
  }

  /** A guard: `:- Need(condition, error);`. */
  function Need(condition: bool, error: Error): Outcome {
    if condition then Pass else Fail(error)
  }

  datatype Option<+T> = None | Some(value: T)
}
