/** The records the balancer reads, its fixed limits and the errors it raises. */
module Entities {

  /** A customer-success agent or a customer: both are `{ id, score }` records. */
  datatype Entity = Entity(id: int, score: int)

  /** The two lists whose limits are checked ('customers' and 'customers success' in the error text). */
  datatype EntityType = Customers | CustomersSuccess

  /** The three ways a call can fail, each with what its message reports. */
  datatype Error =
    | InsufficientStaff
    | QuantityLimitExceeded(entityType: EntityType, limit: int)
    | ScoreLimitExceeded(entityType: EntityType, limit: int)

  /** A returned value or the error that was thrown instead. */
  datatype Result<T> = Success(value: T) | Failure(error: Error)

  datatype Option<T> = None | Some(value: T)

  /** Exclusive ceilings: a list of this length, or a score of this value, is refused. */
  const CustomersSuccessQuantityLimit: int := 1000
  const CustomerSuccessScoreLimit: int := 10000
  const CustomersQuantityLimit: int := 1000000
  const CustomerScoreLimit: int := 100000
}
