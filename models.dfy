/** The normalised market record of src/core/models.py. */
module Models {
  import opened Wrappers
  import opened PyValues
  import opened Parse

  /**
   * One market after normalisation.  The identity and text fields keep the
   * raw value they were read from (`Null` is None); the flags are already
   * coerced to bool; the token ids are whatever the parser returned.
   */
  datatype MarketRecord = MarketRecord(
    id: Value,
    slug: Value,
    question: Value,
    category: Value,
    endDate: Value,
    hoursToClose: Option<real>,
    enableOrderBook: bool,
    active: bool,
    closed: bool,
    yesTokenId: Value,
    noTokenId: Value,
    yesPrice: Option<real>,
    noPrice: Option<real>,
    invalidReason: Option<Reason>,
    clobTokenIds: Option<seq<string>>)
}
