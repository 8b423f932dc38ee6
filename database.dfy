/** The two storage tables the service reads and writes. Their code is not
    part of this model; they are modelled abstractly as a map from user id to
    balance record and an append-only sequence of history entries. */
module Database {
  import opened Point

  /** Every stored record carries the id it is stored under. */
  ghost predicate Keyed(rows: map<int, UserPoint>) {
    forall k :: k in rows ==> rows[k].id == k
  }

  /** What `selectById` returns: the stored record, or the zero-balance record
      for a user the table has never seen. */
  function Select(rows: map<int, UserPoint>, id: int, now: int): (u: UserPoint)
    ensures Keyed(rows) ==> u.id == id
    ensures id !in rows ==> u.point == 0 && u.cost == 0
    ensures id in rows ==> u == rows[id]
  {
    if id in rows then rows[id] else Empty(id, now)
  }

  /** The record `insertOrUpdate(id, amount)` stores and returns. The call
      passes no cost, so the stored cost is 0, as in `UserPoint.empty`. */
  function Record(id: int, amount: int, now: int): UserPoint {
    UserPoint(id, amount, now, 0)
  }

  /** What `selectAllByUserId` returns: the entries of one user, in log order. */
  function ForUser(log: seq<PointHistory>, userId: int): (r: seq<PointHistory>)
    ensures |r| <= |log|
    ensures forall e :: e in r ==> e in log && e.userId == userId
    ensures forall e :: e in log && e.userId == userId ==> e in r
  {
    if log == [] then []
    else
      var last := log[|log| - 1];
      ForUser(log[..|log| - 1], userId) + (if last.userId == userId then [last] else [])
  }

  /** Appending an entry extends its own user's view by that entry and leaves
      every other user's view as it was. */
  lemma ForUserAppend(log: seq<PointHistory>, e: PointHistory, userId: int)
    ensures ForUser(log + [e], userId)
         == ForUser(log, userId) + (if e.userId == userId then [e] else [])
  {
    assert (log + [e])[..|log|] == log;
  }

  /** The balance table: one record per user that has been written. */
  class UserPointTable {
    var rows: map<int, UserPoint>

    ghost predicate Valid()
      reads this
    {
      Keyed(rows)
    }

    constructor ()
      ensures Valid() && rows == map[]
    {
      rows := map[];
    }

    method SelectById(id: int, now: int) returns (u: UserPoint)
      requires Valid()
      ensures u == Select(rows, id, now)
      ensures u.id == id
    {
      u := Select(rows, id, now);
    }

    method InsertOrUpdate(id: int, amount: int, now: int) returns (u: UserPoint)
      requires Valid()
      modifies this
      ensures Valid()
      ensures u == Record(id, amount, now)
      ensures rows == old(rows)[id := u]
    {
      u := Record(id, amount, now);
      rows := rows[id := u];
    }
  }

  /** The history table: an append-only log of entries of all users. */
  class PointHistoryTable {
    var rows: seq<PointHistory>

    constructor ()
      ensures rows == []
    {
      rows := [];
    }

    method Insert(userId: int, amount: int, kind: TransactionType, now: int) returns (e: PointHistory)
      modifies this
      ensures e == PointHistory(userId, amount, kind, now)
      ensures rows == old(rows) + [e]
    {
      e := PointHistory(userId, amount, kind, now);
      rows := rows + [e];
    }

    method SelectAllByUserId(userId: int) returns (r: seq<PointHistory>)
      ensures r == ForUser(rows, userId)
    {
      r := ForUser(rows, userId);
    }
  }
}
