/** The rule violations the engine reports. */
module EngineErrors {
  import opened Wrappers

  /** Why a constrained deal could not be produced. */
  datatype GenerationFailure = TooManyKnownCards | UnfilledHand

  datatype EngineError =
    | InvalidCardValue(value: U8)
    | InvalidBid
    | UnfinishedHand
    | NotBegunHand
    | OutOfOrderPlay
    | DoesNotHaveCard
    | HasToFollowSuit
    | HasToTrump
    | HasToOvertrump
    | FinishedHand
    | HandGenerationNotPossible(reason: GenerationFailure)
    | RustError

  type EngineResult<T> = Result<T, EngineError>
}
