/** Value types of the point service: the balance record `UserPoint`, the
    history entry `PointHistory` with its `TransactionType`, and the typed
    rejections that stand for the service's `InsufficientPointException`. */
module Point {

  /** A user's balance record. Java `long` components are modelled as
      unbounded integers. Equality is component-wise, as for a Java record. */
  datatype UserPoint = UserPoint(id: int, point: int, updateMillis: int, cost: int)

  /** The zero-balance record for a user; `now` stands for the clock reading
      the factory takes. */
  function Empty(id: int, now: int): (u: UserPoint)
    ensures u.id == id
    ensures u.point == 0
    ensures u.cost == 0
  {
    UserPoint(id, 0, now, 0)
  }

  datatype TransactionType = CHARGE | USE

  /** One history entry. The id the history table assigns to an entry is not
      modelled: entries are identified by their position in the log. */
  datatype PointHistory = PointHistory(userId: int, amount: int, kind: TransactionType, updateMillis: int)

  /** The three distinct messages the service throws its exception with. */
  datatype Rejection =
    | ChargeLimitExceeded  // a single charge of one million or more
    | InsufficientPoint    // the balance is not positive or is below the amount
    | CostTooLow           // the purchase price is 10000 or less

  datatype Result<T> = Ok(value: T) | Err(error: Rejection)
}
