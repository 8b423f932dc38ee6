/** `PointServiceImpl`: the four operations over the two tables it is built
    with. Each mutating operation is proved to do exactly what the matching
    function of module Ledger describes. */
module Service {
  import opened Point
  import opened Database
  import opened Ledger

  class PointServiceImpl {
    const userPointTable: UserPointTable
    const pointHistoryTable: PointHistoryTable

    ghost predicate Valid()
      reads userPointTable
    {
      userPointTable.Valid()
    }

    /** The contents of both tables. */
    function Contents(): Store
      reads userPointTable, pointHistoryTable
    {
      Store(userPointTable.rows, pointHistoryTable.rows)
    }

    constructor (userPointTable: UserPointTable, pointHistoryTable: PointHistoryTable)
      ensures this.userPointTable == userPointTable
      ensures this.pointHistoryTable == pointHistoryTable
    {
      this.userPointTable := userPointTable;
      this.pointHistoryTable := pointHistoryTable;
    }

    /** The user's record; an unknown user reads as a zero balance. */
    method GetUserPoint(id: int, now: int) returns (u: UserPoint)
      requires Valid()
      ensures u == Select(userPointTable.rows, id, now)
      ensures u.id == id
      ensures u.point == Balance(userPointTable.rows, id)
    {
      u := userPointTable.SelectById(id, now);
    }

    /** The user's history entries, oldest first. */
    method GetPointHistory(userId: int) returns (r: seq<PointHistory>)
      ensures r == ForUser(pointHistoryTable.rows, userId)
      ensures forall e :: e in r ==> e.userId == userId
    {
      r := pointHistoryTable.SelectAllByUserId(userId);
    }

    method Charge(id: int, amount: int, at: Stamps) returns (r: Result<UserPoint>)
      requires Valid()
      modifies userPointTable, pointHistoryTable
      ensures Valid()
      ensures Step(Contents(), r) == Ledger.Charge(old(Contents()), id, amount, at)
    {
      // the record read here is discarded when the user is unknown, so the
      // clock reading it gets does not matter
      var currentUserPoint := GetUserPoint(id, at.record);
      var currentPoint := CurrentPoint(currentUserPoint);

      if amount >= ChargeLimit {
        return Err(ChargeLimitExceeded);
      }
      var newPoint := currentPoint + amount;
      var updatedUserPoint := userPointTable.InsertOrUpdate(id, newPoint, at.record);

      var _ := pointHistoryTable.Insert(id, amount, CHARGE, at.entry);
      r := Ok(updatedUserPoint);
    }

    method Use(id: int, amount: int, cost: int, at: Stamps) returns (r: Result<UserPoint>)
      requires Valid()
      modifies userPointTable, pointHistoryTable
      ensures Valid()
      ensures Step(Contents(), r) == Ledger.Use(old(Contents()), id, amount, cost, at)
    {
      var currentUserPoint := GetUserPoint(id, at.record);
      var currentPoint := CurrentPoint(currentUserPoint);

      if currentPoint <= 0 || currentPoint < amount {
        return Err(InsufficientPoint);
      }
      if cost <= MinCost {
        return Err(CostTooLow);
      }
      var balance := currentPoint - amount;
      var updatedUserPoint := userPointTable.InsertOrUpdate(id, balance, at.record);

      var _ := pointHistoryTable.Insert(id, amount, USE, at.entry);
      r := Ok(updatedUserPoint);
    }
  }
}
