/** The checks made before any assignment: the away ratio and the per-list limits. */
module Validation {
  import opened Entities

  /**
   * The staffing check: the call fails when more agents are away than half the
   * roster, halving with real division. The away list is counted as given, whether
   * or not its ids belong to any agent.
   */
  function TooManyAway(agents: seq<Entity>, away: seq<int>): (r: bool)
    ensures r <==> 2 * |away| > |agents|
  {
    (|away| as real) > (|agents| as real) / 2.0
  }

  /** A list shorter than its quantity ceiling whose every score is below its score ceiling. */
  predicate WithinLimits(entities: seq<Entity>, quantityLimit: int, scoreLimit: int) {
    |entities| < quantityLimit && forall k :: 0 <= k < |entities| ==> entities[k].score < scoreLimit
  }

  /**
   * Checks one list against its quantity ceiling, then its score ceiling; both are
   * exclusive. On success the list itself is returned.
   */
  function ValidateParameterLimits(entities: seq<Entity>, quantityLimit: int, scoreLimit: int,
                                   entityType: EntityType): (r: Result<seq<Entity>>)
    ensures r.Success? <==> WithinLimits(entities, quantityLimit, scoreLimit)
    ensures r.Success? ==> r.value == entities
    ensures |entities| >= quantityLimit ==> r == Failure(QuantityLimitExceeded(entityType, quantityLimit))
    ensures |entities| < quantityLimit && r.Failure? ==> r == Failure(ScoreLimitExceeded(entityType, scoreLimit))
  {
    if |entities| >= quantityLimit then
      Failure(QuantityLimitExceeded(entityType, quantityLimit))
    else if exists k :: 0 <= k < |entities| && entities[k].score >= scoreLimit then
      Failure(ScoreLimitExceeded(entityType, scoreLimit))
    else
      Success(entities)
  }
}
