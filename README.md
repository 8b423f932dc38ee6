# Point service model

A Dafny model of the point-balance service of `java-tdd-demo`: the class
`PointServiceImpl` and the record `UserPoint`. The service keeps one balance
record per user and a history log. It offers four operations:

- `getUserPoint` reads a balance.
- `getPointHistory` reads a user's history.
- `charge(id, amount)` adds points.
- `use(id, amount, cost)` spends points on a purchase priced `cost`.

Every check runs before anything is written. An accepted call overwrites the
user's record and then appends one history entry.

Files:

- `point.dfy` (module `Point`): the value types. `UserPoint` and its factory
  `Empty`, the history entry `PointHistory` with its `TransactionType`, and the
  typed `Rejection` that replaces the service's exception and its three
  messages.
- `database.dfy` (module `Database`): the two tables, as classes. The balance
  table has a `map` field. The history table has a `seq` field that only grows.
  The functions `Select` and `ForUser` describe what their reads return.
- `ledger.dfy` (module `Ledger`): the service as functions of the tables'
  contents. `Charge` and `Use` say what one call returns and leaves behind.
  `Run` makes a sequence of calls one after another. The lemmas about `Run`
  cover conservation (balance = start + recorded charges − recorded uses), an
  append-only history, untouched other users and non-negative balances.
- `service.dfy` (module `Service`): the class `PointServiceImpl`. It holds its
  two tables, and each of its methods is proved equal to the matching `Ledger`
  function.
- `scenarios.dfy` (module `Scenarios`): the repository's tests restated as
  facts about sequential runs. Each concurrent test becomes a statement about
  every order in which its calls could be linearized. The last lemmas show
  where the tests and the code disagree.

Where the tests and the code disagree, the model follows the code:

- `use` has no 50% usage rule. One unit test expects `use(15000, cost 20000)`
  to be refused; the code accepts it. The rule is kept only as the
  test-only predicate `Scenarios.WithinUsageRatio`, and
  `Scenarios.UsageRatioNotEnforced` shows the code accepting that call.
- `use` refuses every price of 10000 or less. One unit test expects a price of
  exactly 10000 to succeed (`Scenarios.PriceOfTenThousandRefused`).
- `use` checks the balance before the price. A call that fails both checks
  reports the balance (`Scenarios.BalanceCheckedFirst`).
- Neither operation checks the sign of `amount`. A negative charge is accepted
  and can push a balance below zero (`Scenarios.NegativeChargeAccepted`). So
  non-negativity is proved only for runs whose charges are not negative.
- The interface declares a two-argument `use`, but the implementation has three
  arguments. The model follows the implementation.

Clock readings (`System.currentTimeMillis`) are parameters. A call gets a
`Stamps` value: one stamp for the record the balance table writes, one for the
history entry.

## Model

| member | source | states |
|---|---|---|
| `Point.Empty` | src/main/java/io/hhplus/tdd/point/UserPoint.java:10-12 | the empty record keeps the given id and has point 0 and cost 0 |
| `Database.Select` | src/main/java/io/hhplus/tdd/service/PointServiceImpl.java:22-24 | the read returns the stored record; an unknown user reads as point 0 and cost 0; with a keyed table the record carries the requested id |
| `Database.ForUser` | src/main/java/io/hhplus/tdd/service/PointServiceImpl.java:27-29 | a user's history holds only that user's entries, holds every one of them, and is no longer than the log |
| `Database.ForUserAppend` | src/test/java/io/hhplus/tdd/service/PointServiceTest.java:51-72 | appending an entry adds it at the end of its own user's history and leaves every other user's history as it was |
| `Database.UserPointTable.constructor` | src/test/java/io/hhplus/tdd/service/PointServiceTest.java:27 | a new balance table is empty |
| `Database.UserPointTable.SelectById` | src/main/java/io/hhplus/tdd/service/PointServiceImpl.java:23 | returns the record `Select` describes, carrying the requested id |
| `Database.UserPointTable.InsertOrUpdate` | src/main/java/io/hhplus/tdd/service/PointServiceImpl.java:44 | overwrites only the given user's record with the new amount and returns that record; the table stays keyed |
| `Database.PointHistoryTable.constructor` | src/test/java/io/hhplus/tdd/service/PointServiceTest.java:28 | a new history table is empty |
| `Database.PointHistoryTable.Insert` | src/main/java/io/hhplus/tdd/service/PointServiceImpl.java:48 | appends exactly one entry at the end and keeps every earlier entry |
| `Database.PointHistoryTable.SelectAllByUserId` | src/main/java/io/hhplus/tdd/service/PointServiceImpl.java:28 | returns the user's entries in log order |
| `Ledger.CurrentPoint` | src/main/java/io/hhplus/tdd/service/PointServiceImpl.java:35 | the zero test leaves the stored point as it is: the value worked from is the record's point |
| `Ledger.Balance` | src/main/java/io/hhplus/tdd/service/PointServiceImpl.java:34-35 | the balance is the point of whatever `getUserPoint` returns, whatever the clock; an unknown user has balance 0 |
| `Ledger.Charge` | src/main/java/io/hhplus/tdd/service/PointServiceImpl.java:31-51 | refused exactly when amount ≥ 1000000, with nothing changed; otherwise returns and stores old balance + amount for that user only and appends one CHARGE entry |
| `Ledger.Use` | src/main/java/io/hhplus/tdd/service/PointServiceImpl.java:53-78 | refused as InsufficientPoint exactly when balance ≤ 0 or balance < amount; as CostTooLow exactly when that check passes and cost ≤ 10000; nothing changes on refusal; otherwise stores old balance − amount (never negative) for that user only and appends one USE entry |
| `Ledger.ApplyOtherUser` | src/main/java/io/hhplus/tdd/service/PointServiceImpl.java:42-48 | a call by one user leaves every other user's record and history as they were |
| `Ledger.ApplyConserves` | src/main/java/io/hhplus/tdd/service/PointServiceImpl.java:43-48 | for every user, balance minus the net change the history records is the same before and after any call, accepted or refused |
| `Ledger.RunConserves` | src/main/java/io/hhplus/tdd/service/PointServiceImpl.java:31-78 | after any sequence of calls, each user's balance is the start balance plus the charges minus the uses the new history records |
| `Ledger.RunExtendsHistory` | src/main/java/io/hhplus/tdd/service/PointServiceImpl.java:46-48 | any sequence of calls keeps the old history as a prefix and adds at most one entry per call |
| `Ledger.RunOtherUsers` | src/main/java/io/hhplus/tdd/service/PointServiceImpl.java:42-48 | calls by other users leave a user's record and history untouched |
| `Ledger.ApplyKeepsNonNegative` | src/main/java/io/hhplus/tdd/service/PointServiceImpl.java:59-71 | a use never takes a balance below zero, and neither does a charge whose amount is not negative |
| `Ledger.RunKeepsNonNegative` | src/main/java/io/hhplus/tdd/service/PointServiceImpl.java:59-71 | if every balance starts non-negative and no charge is negative, every balance stays non-negative |
| `Ledger.AdmissibleCall` | src/main/java/io/hhplus/tdd/service/PointServiceImpl.java:60-75 | a non-negative charge below the limit, or a positive use the balance covers at a price above the floor, is accepted, moves the balance by its amount and appends its entry |
| `Ledger.RunOneUser` | src/test/java/io/hhplus/tdd/service/PointServiceConcurrencyTest.java:97-138 | charges and uses by one user, in any order, whose start balance covers all the uses: every call is accepted, the final balance is start + total charged − total used, and the history gains one entry per call in call order |
| `Service.PointServiceImpl.constructor` | src/main/java/io/hhplus/tdd/service/PointServiceImpl.java:14-19 | the service works on the two tables it is given |
| `Service.PointServiceImpl.GetUserPoint` | src/main/java/io/hhplus/tdd/service/PointServiceImpl.java:21-24 | read-only; returns the user's record, with the requested id and the user's balance |
| `Service.PointServiceImpl.GetPointHistory` | src/main/java/io/hhplus/tdd/service/PointServiceImpl.java:26-29 | read-only; returns only that user's entries, in log order |
| `Service.PointServiceImpl.Charge` | src/main/java/io/hhplus/tdd/service/PointServiceImpl.java:31-51 | result and both tables afterwards are exactly what `Ledger.Charge` gives for the tables before |
| `Service.PointServiceImpl.Use` | src/main/java/io/hhplus/tdd/service/PointServiceImpl.java:53-78 | result and both tables afterwards are exactly what `Ledger.Use` gives for the tables before |
| `Scenarios.TenCharges` | src/test/java/io/hhplus/tdd/service/PointServiceConcurrencyTest.java:33-59 | ten charges of 1000 from 0, in any order, end at 10000 |
| `Scenarios.TenUses` | src/test/java/io/hhplus/tdd/service/PointServiceConcurrencyTest.java:63-93 | ten uses of 5000 at price 20000 from 100000 are all accepted and end at 50000 |
| `Scenarios.TenChargesTenUses` | src/test/java/io/hhplus/tdd/service/PointServiceConcurrencyTest.java:97-138 | ten charges of 1000 and ten uses of 500 at price 20000 from 50000, in any interleaving, end at 55000 with twenty new entries |
| `Scenarios.ChargeThenUse` | src/test/java/io/hhplus/tdd/integration/PointIntegrationTest.java:167-253 | a new user's charge of 10000 then use of 5000 leaves 5000 and a history of exactly those two entries, charge first |
| `Scenarios.UsageRatioNotEnforced` | src/test/java/io/hhplus/tdd/service/PointServiceTest.java:171-187 | the code accepts spending 15000 of a 20000 price, which the 50% rule the test expects would refuse |
| `Scenarios.PriceOfTenThousandRefused` | src/main/java/io/hhplus/tdd/service/PointServiceImpl.java:64-67 | a use at a price of exactly 10000 is refused with nothing changed, although a unit test expects it to succeed |
| `Scenarios.BalanceCheckedFirst` | src/main/java/io/hhplus/tdd/service/PointServiceImpl.java:59-67 | a use that fails both the balance and the price check is refused for the balance |
| `Scenarios.NegativeChargeAccepted` | src/main/java/io/hhplus/tdd/service/PointServiceImpl.java:38-44 | a charge of −1 is accepted, recorded, and takes a zero balance to −1 |

## Left out

- Concurrency: the implementation takes no locks, so the model covers only sequential calls. The concurrent tests are restated as facts that hold for every order of their calls.
- Java `long` overflow: points, amounts and prices are unbounded integers. Overflow of `current + amount` is assumed not to happen; it is not proved.
- Timestamps: every clock reading is a parameter with no constraint.
- The read inside `charge` and `use` takes the record stamp as its clock reading. That reading is thrown away for an unknown user, so it does not matter.
- The table implementations are not part of this model. `selectById` returns `UserPoint.empty(id)` for an unknown user, as the storage contract describes.
- The `null` case of `PointServiceImpl.java:35`: the modelled table never returns `null`, so that branch cannot be reached.
- Database.UserPointTable.InsertOrUpdate: the implementation calls it with no cost argument, and the table's code is not part of this model. The model stores cost 0, as `UserPoint.empty` does.
- History entry ids are not modelled; an entry is identified by its position in the log.
- The controller, HTTP and JSON handling, Spring wiring and the exception message texts are not modelled. The three messages become the three cases of `Rejection`.
