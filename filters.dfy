/** The candidate filter of src/core/filters.py. */
module Filters {
  import opened Wrappers
  import opened PyValues
  import opened Models

  /**
   * is_candidate: order book enabled, active and not closed, closing within
   * (0, 48] hours, and both token ids truthy; checked in that order with an
   * early `return False`.
   */
  predicate IsCandidate(m: MarketRecord) {
    if !m.enableOrderBook then false
    else if !m.active || m.closed then false
    else if m.hoursToClose.None? then false
    else if !(0.0 < m.hoursToClose.value <= 48.0) then false
    else if !Truthy(m.yesTokenId) || !Truthy(m.noTokenId) then false
    else true
  }

  /** The five conditions, as one conjunction. */
  ghost predicate AllConditionsHold(m: MarketRecord) {
    && m.enableOrderBook
    && m.active && !m.closed
    && m.hoursToClose.Some?
    && 0.0 < m.hoursToClose.value <= 48.0
    && Truthy(m.yesTokenId) && Truthy(m.noTokenId)
  }

  /** is_candidate holds exactly when all five conditions do. */
  lemma CandidateExactly(m: MarketRecord)
    ensures IsCandidate(m) <==> AllConditionsHold(m)
  {
  }

  /** Each failed condition rejects on its own. */
  lemma EachConditionRejects(m: MarketRecord)
    ensures !m.enableOrderBook ==> !IsCandidate(m)
    ensures !m.active || m.closed ==> !IsCandidate(m)
    ensures m.hoursToClose.None? ==> !IsCandidate(m)
    ensures m.yesTokenId == Null || m.yesTokenId == Str("") ==> !IsCandidate(m)
    ensures m.noTokenId == Null || m.noTokenId == Str("") ==> !IsCandidate(m)
  {
  }

  /** The window is open below and closed above: 0 and 48.01 are out, 0.01 and 48 are in. */
  lemma WindowBoundaries(m: MarketRecord)
    requires m.enableOrderBook && m.active && !m.closed
    requires Truthy(m.yesTokenId) && Truthy(m.noTokenId)
    ensures !IsCandidate(m.(hoursToClose := Some(0.0)))
    ensures IsCandidate(m.(hoursToClose := Some(0.01)))
    ensures IsCandidate(m.(hoursToClose := Some(48.0)))
    ensures !IsCandidate(m.(hoursToClose := Some(48.01)))
    ensures !IsCandidate(m.(hoursToClose := Some(-1.0)))
  {
  }
}
